/** Recovery: whatever earlier runs left behind, wherever they were killed, and whatever others do
    meanwhile, a create or a retry whose tools succeed ends with the context READY on exactly its
    recorded revisions, and a removal whose tools succeed ends with the record gone. None of them is
    ever stuck. */
module ManagedRecovery {
  import opened Options
  import opened Names
  import opened NameOrder
  import opened Lifecycle
  import opened Managed
  import opened ManagedInvariant
  import opened ManagedProofs
  import opened ManagedSteps
  import opened ManagedIndexing
  import opened ManagedSafety
  import opened ManagedTheorems
  import opened ManagedHistory

  // ---------------------------------------------------------------- how much is left to do

  function Rank(q: Process): nat
    requires q.ContextRun?
  {
    match q.pc
    case Locking => 13
    case Check => 12
    case Write(s) =>
      (match s
       case Creating => 12
       case Removing => 11
       case Resolving => 9
       case PreparingSource => 8
       case IndexingSearch => 6
       case IndexingGraph => 4
       case Verifying => 2
       case Ready => 0
       case Failed => 0)
    case DropGraph(_) => 10
    case DropTree(_) => 10
    case DropRef(_) => 10
    case Prepare(_) => 7
    case Index(_, _) => 5
    case BuildGraph(_) => 3
    case Verify(_) => 1
    case Delete => 0
  }

  function Left(q: Process): int
    requires q.ContextRun?
  {
    var n := |q.rec.members|;
    match q.pc
    case DropGraph(i) => 3 * (n - i) + 2
    case DropTree(i) => 3 * (n - i) + 1
    case DropRef(i) => 3 * (n - i)
    case Prepare(i) => n - i
    case Index(i, _) => |q.order| - i
    case BuildGraph(i) => n - i
    case Verify(i) => n - i
    case _ => 0
  }

  function Refs(q: Process): nat
    requires q.ContextRun?
  {
    match q.pc
    case Index(_, sub) => if sub.Putting? then |sub.todo| else 0
    case _ => 0
  }

  predicate StartsRepository(q: Process)
    requires q.ContextRun?
  {
    q.pc.Index? && q.pc.sub.Reading?
  }

  /** q' has less left to do than q. */
  predicate Closer(q': Process, q: Process)
    requires q.ContextRun? && q'.ContextRun?
  {
    || Rank(q') < Rank(q)
    || (Rank(q') == Rank(q) && 0 <= Left(q') < Left(q))
    || (Rank(q') == Rank(q) && Left(q') == Left(q) && StartsRepository(q) && !StartsRepository(q'))
    || (Rank(q') == Rank(q) && Left(q') == Left(q) && StartsRepository(q) == StartsRepository(q') && Refs(q') < Refs(q))
  }

  /** Past its locks, its record read, and not on its way to FAILED. */
  predicate AtIt(q: Process) {
    q.ContextRun? && !q.pc.Locking? && !q.pc.Check? && q.pc != Write(Failed)
  }

  ghost predicate Finished(w': World, q: Process)
    requires q.ContextRun?
  {
    if q.op.Remove? then q.id !in w'.records
    else q.id in w'.records && w'.records[q.id] == Record(q.rec.members, Ready)
  }

  /** One more step: the operation is done, or closer to it. */
  ghost predicate Progress(w: World, w': World, p: nat, q: Process)
    requires q.ContextRun?
  {
    if p in w'.processes then
      var q' := w'.processes[p];
      AtIt(q') && q'.op == q.op && q'.id == q.id && q'.rec.members == q.rec.members && Closer(q', q)
    else Finished(w', q)
  }

  // ---------------------------------------------------------------- every tool call can succeed

  lemma PcAtWork(home: Homes, w: World, p: nat, q: Process)
    requires Works(home, w, p, q) && q.pc != Write(Creating)
    ensures p in w.processes && w.processes[p] == q && q.ContextRun?
    ensures PcOk(w, q) && q.rec.members != [] && q.order != []
    ensures q.id in w.records && w.records[q.id] == q.rec
    ensures if q.op.Remove? then RemoveFacts(w, q) else BuildFacts(w, q)
    ensures forall m :: m in q.rec.members ==> Backed(w.repositories, w.clones, m)
  {
    forall m | m in q.rec.members ensures Backed(w.repositories, w.clones, m) {
      assert m in w.records[q.id].members;
    }
  }

  lemma WriteGoesOn(home: Homes, w: World, p: nat, q: Process, s: Stage)
    requires Works(home, w, p, q) && AtIt(q) && q.pc == Write(s) && s != Creating
    ensures Progress(w, DoWrite(w, p, q, s), p, q)
  {
    hide Works, BuildFacts, RemoveFacts, PcOk, Backed;
    PcAtWork(home, w, p, q);
    WriteAllowed(w, q, s);
    WriteShape(w, p, q, s);
    WriteCloser(w, q, s);
  }

  /** A create whose record is not filed yet files it. */
  lemma FilingGoesOn(home: Homes, w: World, p: nat, q: Process)
    requires Works(home, w, p, q) && q.pc == Write(Creating)
    ensures Progress(w, DoWrite(w, p, q, Creating), p, q)
  {
    hide GlobalOk, WellFormed;
  }

  lemma WriteCloser(w: World, q: Process, s: Stage)
    requires q.ContextRun? && q.pc == Write(s) && s != Creating && s != Failed && PcOk(w, q)
    requires q.rec.members != [] && q.order != []
    ensures var pc := AfterWrite(q.op, q.rec.(state := s), q.order, s);
            if pc.Some? then AtIt(q.(rec := q.rec.(state := s), pc := pc.value)) && Closer(q.(rec := q.rec.(state := s), pc := pc.value), q)
            else s == Ready && !q.op.Remove?
  {}

  lemma WriteAllowed(w: World, q: Process, s: Stage)
    requires q.ContextRun? && q.pc == Write(s) && s != Creating && PcOk(w, q)
    ensures Restarts(q.op, s) || Advances(q.rec.state, s)
  {}

  lemma DropGoesOn(home: Homes, w: World, p: nat, q: Process)
    requires Works(home, w, p, q) && AtIt(q) && (q.pc.DropGraph? || q.pc.DropTree? || q.pc.DropRef?)
    ensures ActContext(w, p, q, Done).Some? && Progress(w, ActContext(w, p, q, Done).value, p, q)
  {
    hide Works, BuildFacts, RemoveFacts;
    PcAtWork(home, w, p, q);
    var i := q.pc.i;
    assert Backed(w.repositories, w.clones, q.rec.members[i]);
    hide PcOk, DropsIn;
  }

  lemma PrepareGoesOn(home: Homes, w: World, p: nat, q: Process, i: nat)
    requires Works(home, w, p, q) && q.pc == Prepare(i)
    ensures ActContext(w, p, q, Done).Some? && Progress(w, ActContext(w, p, q, Done).value, p, q)
  {
    hide Works;
    PcAtWork(home, w, p, q);
    assert (q.rec.members[i].repository, q.id) !in w.trees;
    assert Backed(w.repositories, w.clones, q.rec.members[i]);
  }

  lemma GraphGoesOn(home: Homes, w: World, p: nat, q: Process, i: nat)
    requires Works(home, w, p, q) && q.pc == BuildGraph(i)
    ensures ActContext(w, p, q, Done).Some? && Progress(w, ActContext(w, p, q, Done).value, p, q)
  {
    hide Works, Backed, HasRef, HasShard, HasGraph;
    PcAtWork(home, w, p, q);
    assert HasTree(w.trees, q.id, q.rec.members[i]);
  }

  /** Verification of a fully built member cannot find anything wrong. */
  lemma VerifiesBuilt(home: Homes, w: World, p: nat, q: Process, i: nat)
    requires Works(home, w, p, q) && q.pc == Verify(i)
    ensures i < |q.rec.members| && Verified(w, q.id, q.rec.members[i])
  {
    hide Works;
    PcAtWork(home, w, p, q);
    AtWorkOrder(home, w, p, q);
    var m := q.rec.members[i];
    assert Backed(w.repositories, w.clones, m);
    var j :| 0 <= j < |q.order| && q.order[j] == m.repository;
    assert HasRef(w.clones, m) && HasShard(w.shards, m) && HasTree(w.trees, q.id, m) && HasGraph(w.graphs, m);
  }

  lemma AtWorkOrder(home: Homes, w: World, p: nat, q: Process)
    requires Works(home, w, p, q)
    ensures q.ContextRun? && VerifyIdentity(q.id, q.rec.members)
    ensures forall m :: m in q.rec.members ==> m.repository in q.order
  {
    hide GlobalOk, VerifyIdentity;
    AtWork(home, w, p, q);
    assert WellFormed(home, q.id, q.rec.members);
  }

  lemma VerifyGoesOn(home: Homes, w: World, p: nat, q: Process, i: nat)
    requires Works(home, w, p, q) && q.pc == Verify(i)
    ensures ActContext(w, p, q, Done).Some? && Progress(w, ActContext(w, p, q, Done).value, p, q)
  {
    hide Works, Verified, VerifyIdentity, BuildFacts, RemoveFacts, Backed;
    PcAtWork(home, w, p, q);
    AtWorkOrder(home, w, p, q);
    VerifiesBuilt(home, w, p, q, i);
  }

  /** A ref the records want is of a commit its clone has. */
  lemma WantedHasCommit(home: Homes, w: World, r: string, e: (string, string))
    requires GlobalOk(home, w) && e in Wanted(w.records, r)
    ensures r in w.clones && w.clones[r].Whole? && e.1 in w.clones[r].commits
  {
    var c, m :| c in w.records && m in w.records[c].members && m.repository == r && e == (m.branch, m.revision);
    assert Backed(w.repositories, w.clones, m);
  }

  lemma IndexAtWork(home: Homes, w: World, p: nat, q: Process, i: nat, sub: Indexing)
    requires Works(home, w, p, q) && q.pc == Index(i, sub)
    ensures p in w.processes && w.processes[p] == q && q.ContextRun? && i < |q.order|
    ensures q.order[i] in w.clones && w.clones[q.order[i]].Whole?
    ensures sub.Putting? ==> sub.refs <= w.clones[q.order[i]].refs.Keys
    ensures sub.Putting? ==> forall e :: e in sub.todo ==> e.1 in w.clones[q.order[i]].commits
  {
    hide GlobalOk;
    PcAtWork(home, w, p, q);
    AtWork(home, w, p, q);
    IndexedClone(home, w, q, i);
    if sub.Putting? {
      forall e | e in sub.todo ensures e.1 in w.clones[q.order[i]].commits {
        WantedHasCommit(home, w, q.order[i], e);
      }
    }
  }

  lemma IndexReads(home: Homes, w: World, p: nat, q: Process, i: nat)
    requires Works(home, w, p, q) && q.pc == Index(i, Reading)
    ensures ActContext(w, p, q, Done).Some? && Progress(w, ActContext(w, p, q, Done).value, p, q)
  {
    hide Works, Wanted;
    IndexAtWork(home, w, p, q, i, Reading);
    assert ActContext(w, p, q, Done) == Some(Goto(w, p, q.(pc := Index(i, Putting(Wanted(w.records, q.order[i]), {})))));
  }

  lemma IndexPuts(home: Homes, w: World, p: nat, q: Process, i: nat, todo: set<(string, string)>, refs: set<string>, e: (string, string))
    requires Works(home, w, p, q) && q.pc == Index(i, Putting(todo, refs)) && e in todo
    ensures ActContext(w, p, q, Picked(e)).Some? && Progress(w, ActContext(w, p, q, Picked(e)).value, p, q)
  {
    hide Works, Wanted;
    IndexAtWork(home, w, p, q, i, Putting(todo, refs));
    var w' := ActContext(w, p, q, Picked(e)).value;
    assert w'.processes[p] == q.(pc := Index(i, Putting(todo - {e}, refs + {e.0})));
  }

  lemma IndexEnds(home: Homes, w: World, p: nat, q: Process, i: nat, refs: set<string>)
    requires Works(home, w, p, q) && q.pc == Index(i, Putting({}, refs))
    ensures ActContext(w, p, q, Done).Some? && Progress(w, ActContext(w, p, q, Done).value, p, q)
  {
    hide Works, Wanted;
    IndexAtWork(home, w, p, q, i, Putting({}, refs));
    var w' := ActContext(w, p, q, Done).value;
    assert w'.processes[p] == q.(pc := AfterIndex(q.op, q.order, i + 1));
  }

  /** The next thing to do is to write one of the refs still on the list. */
  predicate Puts(q: Process) {
    q.ContextRun? && q.pc.Index? && q.pc.sub.Putting? && q.pc.sub.todo != {}
  }

  /** Everywhere else there is one way to succeed, and nothing left over from earlier runs is ever in
      its way. */
  lemma DoneGoesOn(home: Homes, w: World, p: nat, q: Process)
    requires Works(home, w, p, q) && AtIt(q) && !Puts(q)
    ensures ActContext(w, p, q, Done).Some? && Progress(w, ActContext(w, p, q, Done).value, p, q)
  {
    hide GlobalOk, LocalOk, ActArtifact, DoWrite, Progress;
    match q.pc {
      case Write(s) => if s == Creating { FilingGoesOn(home, w, p, q); } else { WriteGoesOn(home, w, p, q, s); }
      case Prepare(i) => PrepareGoesOn(home, w, p, q, i);
      case Index(i, sub) => if sub.Reading? { IndexReads(home, w, p, q, i); } else { IndexEnds(home, w, p, q, i, sub.refs); }
      case BuildGraph(i) => GraphGoesOn(home, w, p, q, i);
      case Verify(i) => VerifyGoesOn(home, w, p, q, i);
      case DropGraph(_) => DropGoesOn(home, w, p, q);
      case DropTree(_) => DropGoesOn(home, w, p, q);
      case DropRef(_) => DropGoesOn(home, w, p, q);
      case Delete => DeleteFinishes(home, w, p, q);
    }
  }

  /** At every point of a build or a removal there is an answer of the tools that takes it further. */
  lemma GoesFurther(home: Homes, w: World, p: nat, q: Process) returns (out: Outcome)
    requires Works(home, w, p, q) && AtIt(q)
    ensures Succeeds(q, out) && Apply(w, Act(p, out)).Some? && Progress(w, Apply(w, Act(p, out)).value, p, q)
  {
    hide GlobalOk, LocalOk, ActContext, Progress, AtIt;
    if Puts(q) {
      var e :| e in q.pc.sub.todo;
      out := Picked(e);
      IndexPuts(home, w, p, q, q.pc.i, q.pc.sub.todo, q.pc.sub.refs, e);
    } else {
      out := Done;
      DoneGoesOn(home, w, p, q);
    }
  }

  /** The tools did what they were asked to. */
  predicate Succeeds(q: Process, out: Outcome) {
    !out.Broken? && (q.ContextRun? && q.pc.Verify? ==> out.Done?)
  }

  lemma SuccessIsDone(w: World, p: nat, q: Process, out: Outcome)
    requires AtIt(q) && !Puts(q) && Succeeds(q, out) && ActContext(w, p, q, out).Some?
    ensures ActContext(w, p, q, out) == ActContext(w, p, q, Done)
  {
    hide DoWrite, DoVerify, Wanted, AfterIndex, AfterDrop, AfterPrepare, AfterGraph;
  }

  /** And every answer of the tools that is a success takes it further. */
  lemma SuccessGoesFurther(home: Homes, w: World, p: nat, q: Process, out: Outcome)
    requires Works(home, w, p, q) && AtIt(q) && Succeeds(q, out) && ActContext(w, p, q, out).Some?
    ensures Progress(w, ActContext(w, p, q, out).value, p, q)
  {
    hide GlobalOk, LocalOk, ActContext, Progress;
    if Puts(q) {
      PutsPicked(w, p, q, out);
      IndexPuts(home, w, p, q, q.pc.i, q.pc.sub.todo, q.pc.sub.refs, out.item);
    } else {
      DoneGoesOn(home, w, p, q);
      SuccessIsDone(w, p, q, out);
    }
  }

  /** A call of a tool that fails ends a removal or a clean-up where it is, and sends a build to FAILED;
      in either case no record changes yet. */
  lemma FailureStops(w: World, p: nat, q: Process, out: Outcome)
    requires p in w.processes && w.processes[p] == q && AtIt(q) && !q.pc.Write? && !q.pc.Delete? && out.Broken?
    requires q.pc.DropRef? ==> q.op.Remove?
    requires Apply(w, Act(p, out)).Some?
    ensures var w' := Apply(w, Act(p, out)).value;
            && w'.records == w.records
            && (if q.op.Remove? || q.pc.DropGraph? || q.pc.DropTree? then w'.processes == w.processes - {p}
                else w'.processes == w.processes[p := q.(pc := Write(Failed))])
  {
    hide OnlyMoves, Verified, HasCommit, VerifyIdentity, Leave, Wanted;
  }

  /** Verifying a member goes on exactly when nothing failed and everything of it is as recorded - its
      commit and its checkout, its search ref at its revision, a shard of its repository and a graph of
      its name - and, at the last member, the record's names are the generated ones; otherwise the
      context is on its way to FAILED. */
  lemma VerifiesExactly(w: World, p: nat, q: Process, i: nat, out: Outcome)
    requires p in w.processes && w.processes[p] == q && q.ContextRun? && q.pc == Verify(i) && !q.op.Remove? && i < |q.rec.members|
    ensures var m := q.rec.members[i];
            var goesOn := (
              && out.Done?
              && m.repository in w.clones && w.clones[m.repository].Whole? && m.revision in w.clones[m.repository].commits
              && (m.repository, q.id) in w.trees && w.trees[(m.repository, q.id)] == At(m.revision)
              && m.branch in w.clones[m.repository].refs && w.clones[m.repository].refs[m.branch] == m.revision
              && m.repository in w.shards && m.graphRef in w.graphs
              && (i == |q.rec.members| - 1 ==> VerifyIdentity(q.id, q.rec.members)));
            var next := if !goesOn then Write(Failed) else if i == |q.rec.members| - 1 then Write(Ready) else Verify(i + 1);
            Apply(w, Act(p, out)) == Some(w.(processes := w.processes[p := q.(pc := next)]))
  {
    hide OnlyMoves, VerifyIdentity;
  }

  lemma PutsPicked(w: World, p: nat, q: Process, out: Outcome)
    requires AtIt(q) && Puts(q) && !out.Broken? && ActContext(w, p, q, out).Some?
    ensures out.Picked? && out.item in q.pc.sub.todo
  {}

  lemma DeleteFinishes(home: Homes, w: World, p: nat, q: Process)
    requires Works(home, w, p, q) && q.pc.Delete?
    ensures ActContext(w, p, q, Done).Some? && Progress(w, ActContext(w, p, q, Done).value, p, q)
  {
    hide GlobalOk;
  }

  // ---------------------------------------------------------------- whole operations

  /** Every step of the run is this process's own. */
  predicate OwnSteps(labels: seq<Label>, p: nat) {
    forall i :: 0 <= i < |labels| ==> !labels[i].Crash? && labels[i].p == p
  }

  lemma FirstStep(home: Homes, w: World, l: Label, next: World, rest: seq<Label>, end: World)
    requires Disciplined(home, w, l) && Apply(w, l) == Some(next)
    requires DisciplinedRun(home, next, rest) && Run(next, rest) == Some(end)
    ensures DisciplinedRun(home, w, [l] + rest) && Run(w, [l] + rest) == Some(end)
  {
    hide Apply, Disciplined;
    assert ([l] + rest)[1..] == rest;
  }

  lemma InvWorks(home: Homes, w: World, p: nat)
    requires Inv(home, w) && p in w.processes && AtIt(w.processes[p])
    ensures Works(home, w, p, w.processes[p])
    ensures (Creates(w, p) ==> FreshNames(w, w.processes[p])) ==> forall out :: Disciplined(home, w, Act(p, out))
  {
    hide GlobalOk, LocalOk, FreshNames;
  }

  /** A record is filed once: what is closer to the end is past that. */
  lemma FiledOnce(q': Process, q: Process)
    requires AtIt(q') && AtIt(q) && Closer(q', q)
    ensures q'.pc != Write(Creating)
  {}

  /** What a command leaves alone: every other process and record, the repositories, and the commits of
      every clone. */
  ghost predicate LeavesAlone(w: World, w': World, p: nat, id: string) {
    && w'.processes - {p} == w.processes - {p} && w'.repositories == w.repositories && CommitsKept(w.clones, w'.clones)
    && forall d :: d != id ==> Same(w.records, w'.records, d)
  }

  ghost predicate CommitsKept(clones: map<string, Clone>, clones': map<string, Clone>) {
    && clones'.Keys == clones.Keys
    && forall r :: r in clones ==>
         if clones[r].Damaged? then clones'[r] == clones[r] else clones'[r].Whole? && clones'[r].commits == clones[r].commits
  }

  lemma MovesAlone(w: World, w': World, p: nat, q: Process)
    requires OnlyMoves(w, w', p, q)
    ensures w'.processes - {p} == w.processes - {p}
  {}

  lemma IndexCommits(w: World, p: nat, q: Process, i: nat, sub: Indexing, out: Outcome)
    requires q.ContextRun? && i < |q.order| && DoIndex(w, p, q, i, sub, out).Some?
    ensures CommitsKept(w.clones, DoIndex(w, p, q, i, sub, out).value.clones)
  {
    hide Wanted, AfterIndex, OnlyMoves;
    if out.Broken? || sub.Reading? {
      hide CommitsKept;
      CommitsAsTheyWere(w.clones);
    }
  }

  lemma CommitsAsTheyWere(clones: map<string, Clone>)
    ensures CommitsKept(clones, clones)
  {}

  lemma DropRefCommits(w: World, p: nat, q: Process, i: nat, out: Outcome)
    requires q.ContextRun? && i < |q.rec.members| && DoDropRef(w, p, q, i, out).Some?
    ensures CommitsKept(w.clones, DoDropRef(w, p, q, i, out).value.clones)
  {
    hide AfterDrop, OnlyMoves;
  }

  lemma ActLeavesAlone(w: World, p: nat, q: Process, out: Outcome)
    requires q.ContextRun? && ActContext(w, p, q, out).Some?
    ensures LeavesAlone(w, ActContext(w, p, q, out).value, p, q.id)
  {
    RecordsAfter(w, p, q, out);
    MovesAlone(w, ActContext(w, p, q, out).value, p, q);
    if q.pc.Index? {
      IndexCommits(w, p, q, q.pc.i, q.pc.sub, out);
      hide DoIndex;
    } else if q.pc.DropRef? {
      DropRefCommits(w, p, q, q.pc.i, out);
      hide DoDropRef;
    } else {
      ClonesAfter(w, p, q, out);
      hide ActContext;
    }
  }

  lemma LeavesAloneTwice(w: World, mid: World, end: World, p: nat, id: string)
    requires LeavesAlone(w, mid, p, id) && LeavesAlone(mid, end, p, id)
    ensures LeavesAlone(w, end, p, id)
  {
    forall d | d != id ensures Same(w.records, end.records, d) {
      assert Same(w.records, mid.records, d) && Same(mid.records, end.records, d);
    }
  }

  /** Left alone with tools that succeed, a build or a removal finishes. */
  lemma {:induction false} Completes(home: Homes, w: World, p: nat) returns (labels: seq<Label>, end: World)
    requires Inv(home, w) && p in w.processes && AtIt(w.processes[p])
    requires Creates(w, p) ==> FreshNames(w, w.processes[p])
    ensures OwnSteps(labels, p) && DisciplinedRun(home, w, labels) && Run(w, labels) == Some(end)
    ensures p !in end.processes && Finished(end, w.processes[p]) && LeavesAlone(w, end, p, w.processes[p].id)
    decreases Rank(w.processes[p]), Left(w.processes[p]), StartsRepository(w.processes[p]), Refs(w.processes[p])
  {
    hide Inv, Apply, Disciplined, DisciplinedRun, Run, AtIt, LeavesAlone, FreshNames;
    var q := w.processes[p];
    InvWorks(home, w, p);
    var out := GoesFurther(home, w, p, q);
    StepInv(home, w, Act(p, out));
    var next := Apply(w, Act(p, out)).value;
    ActsAlone(w, p, out);
    if p in next.processes {
      FiledOnce(next.processes[p], q);
      var rest;
      rest, end := Completes(home, next, p);
      LeavesAloneTwice(w, next, end, p, q.id);
      FirstStep(home, w, Act(p, out), next, rest, end);
      labels := [Act(p, out)] + rest;
    } else {
      NoMore(home, next);
      end := next;
      FirstStep(home, w, Act(p, out), next, [], next);
      labels := [Act(p, out)] + [];
    }
  }

  lemma ActsAlone(w: World, p: nat, out: Outcome)
    requires p in w.processes && w.processes[p].ContextRun? && Apply(w, Act(p, out)).Some?
    ensures LeavesAlone(w, Apply(w, Act(p, out)).value, p, w.processes[p].id)
  {
    hide LeavesAlone, ActContext;
    ActLeavesAlone(w, p, w.processes[p], out);
  }

  // ---------------------------------------------------------------- among others

  /** In this run the process is not killed and its tools succeed; everybody else starts, fails and
      dies as they like. */
  ghost predicate Spared(w: World, p: nat, labels: seq<Label>)
    decreases |labels|
  {
    labels != [] && p in w.processes && Apply(w, labels[0]).Some? ==>
      && labels[0] != Crash(p)
      && (labels[0].Act? && labels[0].p == p ==> Succeeds(w.processes[p], labels[0].out))
      && Spared(Apply(w, labels[0]).value, p, labels[1..])
  }

  /** A step another process takes, and one of those that start a process or take a lock. */
  lemma OthersLeave(w: World, l: Label, p: nat)
    requires p in w.processes && Apply(w, l).Some? && l.p != p
    ensures p in Apply(w, l).value.processes && Apply(w, l).value.processes[p] == w.processes[p]
  {
    hide ActContext, ActRepository, ActServer, LockFree, ManagementRuns, ServerRuns, LockNames, RepositoriesOf, HasDotDot, ValidName, Unrepeated;
  }

  lemma OwnLabels(w: World, l: Label, p: nat)
    requires p in w.processes && Apply(w, l).Some? && l.p == p && l != Crash(p)
    ensures l.Act? || l.Acquire?
    ensures l.Acquire? && w.processes[p].ContextRun? ==> w.processes[p].pc.Locking?
  {
    hide ActContext, ActRepository, ActServer, LockFree, ManagementRuns, ServerRuns, LockNames, RepositoriesOf, HasDotDot, ValidName, Unrepeated;
  }

  /** The same operation with the same record in hand, at the same point or closer to its end. */
  predicate Continues(q': Process, q: Process)
    requires q.ContextRun?
  {
    AtIt(q') && q'.op == q.op && q'.id == q.id && q'.rec.members == q.rec.members && (q' == q || Closer(q', q))
  }

  predicate Acted(labels: seq<Label>, p: nat) {
    exists i :: 0 <= i < |labels| && labels[i].Act? && labels[i].p == p
  }

  /** Whatever everybody else does meanwhile, a build or a removal that is not killed and whose tools
      succeed is at every point of every run still at it with the same members, and closer to its end
      once it has done anything, or at some point has finished: READY at the recorded members, or the
      record gone. */
  lemma {:induction false} SuccessfulRunFinishes(home: Homes, w: World, p: nat, labels: seq<Label>) returns (k: nat)
    requires Inv(home, w) && p in w.processes && AtIt(w.processes[p])
    requires DisciplinedRun(home, w, labels) && Run(w, labels).Some? && Spared(w, p, labels)
    ensures k <= |labels| && Run(w, labels[..k]).Some?
    ensures var mid, q := Run(w, labels[..k]).value, w.processes[p];
            if p in mid.processes then
              k == |labels| && Continues(mid.processes[p], q) && (Acted(labels, p) ==> Closer(mid.processes[p], q))
            else Finished(mid, q)
    decreases |labels|
  {
    hide Inv, Disciplined, Closer, Apply, Finished, Succeeds;
    var q := w.processes[p];
    if labels == [] {
      return 0;
    }
    var l := labels[0];
    var next := Apply(w, l).value;
    StepInv(home, w, l);
    if l.p == p {
      OwnStepGoesFurther(home, w, p, l);
      if p !in next.processes {
        PrefixRun(w, labels, 0);
        return 1;
      }
    } else {
      OthersLeave(w, l, p);
    }
    var j := SuccessfulRunFinishes(home, next, p, labels[1..]);
    k := j + 1;
    PrefixRun(w, labels, j);
    var mid := Run(w, labels[..k]).value;
    if p in mid.processes {
      Chained(mid.processes[p], next.processes[p], q, l.p == p, Acted(labels[1..], p));
      ActedFirst(labels, p);
    } else {
      FinishedSame(mid, next.processes[p], q);
    }
  }

  lemma ActedFirst(labels: seq<Label>, p: nat)
    requires labels != []
    ensures Acted(labels, p) <==> (labels[0].Act? && labels[0].p == p) || Acted(labels[1..], p)
  {
    if Acted(labels, p) {
      var i :| 0 <= i < |labels| && labels[i].Act? && labels[i].p == p;
      assert i > 0 ==> labels[1..][i - 1] == labels[i];
    }
    if Acted(labels[1..], p) {
      var i :| 0 <= i < |labels[1..]| && labels[1..][i].Act? && labels[1..][i].p == p;
      assert labels[i + 1] == labels[1..][i];
    }
  }

  lemma OwnStepGoesFurther(home: Homes, w: World, p: nat, l: Label)
    requires Inv(home, w) && p in w.processes && AtIt(w.processes[p]) && l.p == p && l != Crash(p)
    requires Apply(w, l).Some? && (l.Act? ==> Succeeds(w.processes[p], l.out))
    ensures l.Act? && Progress(w, Apply(w, l).value, p, w.processes[p])
  {
    OwnLabels(w, l, p);
    InvWorks(home, w, p);
    hide Inv, ActContext, Progress, Succeeds;
    SuccessGoesFurther(home, w, p, w.processes[p], l.out);
  }

  lemma Chained(end: Process, next: Process, q: Process, own: bool, acted: bool)
    requires q.ContextRun? && next.ContextRun? && Continues(end, next) && (acted ==> Closer(end, next))
    requires Continues(next, q) && (own ==> Closer(next, q)) && (!own ==> next == q)
    ensures Continues(end, q) && (own || acted ==> Closer(end, q))
  {
    hide Closer;
    if Closer(end, next) && Closer(next, q) {
      CloserTransitive(end, next, q);
    }
  }

  lemma FinishedSame(mid: World, next: Process, q: Process)
    requires q.ContextRun? && next.ContextRun? && Finished(mid, next)
    requires next.op == q.op && next.id == q.id && next.rec.members == q.rec.members
    ensures Finished(mid, q)
  {}

  /** What a command that is gone has come to: a removal leaves no record; a retry leaves the context
      READY, unless somebody took it away or is doing so; a create leaves the id recorded, unless one
      of its repositories is not managed. */
  ghost predicate Settled(w: World, q: Process)
    requires q.ContextRun?
  {
    match q.op
    case Remove => q.id !in w.records
    case Retry => q.id in w.records ==> w.records[q.id].state == Ready || w.records[q.id].state == Removing
    case Create(pins) => q.id in w.records || exists i :: 0 <= i < |pins| && pins[i] !in w.repositories
  }

  predicate SameCommand(q': Process, q: Process)
    requires q.ContextRun?
  {
    q'.ContextRun? && q'.op == q.op && q'.id == q.id
  }

  /** The whole of a command, from its start on and waiting for its locks included: in every run in which
      it is not killed and its tools succeed it is still under way, or at some point has come to what
      it was for. */
  lemma {:induction false} EndsAmongOthers(home: Homes, w: World, p: nat, labels: seq<Label>) returns (k: nat)
    requires Inv(home, w) && p in w.processes && w.processes[p].ContextRun? && w.processes[p].pc != Write(Failed)
    requires DisciplinedRun(home, w, labels) && Run(w, labels).Some? && Spared(w, p, labels)
    ensures k <= |labels| && Run(w, labels[..k]).Some?
    ensures var mid, q := Run(w, labels[..k]).value, w.processes[p];
            if p in mid.processes then k == |labels| && SameCommand(mid.processes[p], q) && mid.processes[p].pc != Write(Failed)
            else Settled(mid, q)
    decreases |labels|
  {
    hide Inv, Disciplined, Closer, Apply, Finished, Succeeds, Settled;
    var q := w.processes[p];
    if AtIt(q) {
      k := SuccessfulRunFinishes(home, w, p, labels);
      FinishedSettles(Run(w, labels[..k]).value, q);
      return;
    }
    if labels == [] {
      return 0;
    }
    var l := labels[0];
    var next := Apply(w, l).value;
    StepInv(home, w, l);
    if l.p == p {
      GettingThere(w, p, l);
      if p !in next.processes {
        PrefixRun(w, labels, 0);
        return 1;
      }
    } else {
      OthersLeave(w, l, p);
    }
    var j := EndsAmongOthers(home, next, p, labels[1..]);
    k := j + 1;
    PrefixRun(w, labels, j);
    SettledSame(Run(w, labels[..k]).value, next.processes[p], q);
  }

  lemma FinishedSettles(w: World, q: Process)
    requires q.ContextRun?
    ensures Finished(w, q) ==> Settled(w, q)
  {}

  lemma SettledSame(w: World, q': Process, q: Process)
    requires q.ContextRun? && SameCommand(q', q)
    ensures Settled(w, q') ==> Settled(w, q)
  {}

  /** A command that is not yet at work takes a lock, gets to work, or is refused for a reason. */
  lemma GettingThere(w: World, p: nat, l: Label)
    requires p in w.processes && w.processes[p].ContextRun? && !AtIt(w.processes[p]) && w.processes[p].pc != Write(Failed)
    requires l.p == p && l != Crash(p) && Apply(w, l).Some? && (l.Act? ==> Succeeds(w.processes[p], l.out))
    ensures var next, q := Apply(w, l).value, w.processes[p];
            if p in next.processes then SameCommand(next.processes[p], q) && next.processes[p].pc != Write(Failed) else Settled(next, q)
  {
    OwnLabels(w, l, p);
    var q := w.processes[p];
    if l.Acquire? {
      hide LockFree;
    } else {
      assert q.pc.Check?;
      CheckSettles(w, p, q, l.out);
      hide DoCheck;
    }
  }

  lemma CheckSettles(w: World, p: nat, q: Process, out: Outcome)
    requires q.ContextRun? && q.pc.Check? && !out.Broken? && DoCheck(w, p, q, out).Some?
    ensures var next := DoCheck(w, p, q, out).value;
            if p in next.processes then SameCommand(next.processes[p], q) && next.processes[p].pc != Write(Failed) else Settled(next, q)
  {
    hide LockNames, RepositoriesOf, PinnedMembers;
  }

  lemma CloserTransitive(a: Process, b: Process, c: Process)
    requires a.ContextRun? && b.ContextRun? && c.ContextRun? && Closer(a, b) && Closer(b, c)
    ensures Closer(a, c)
  {}

  lemma NoMore(home: Homes, w: World)
    ensures DisciplinedRun(home, w, []) && Run(w, []) == Some(w)
  {}

  /** Nobody else holds a lock this context needs, and no server runs. */
  ghost predicate Undisputed(home: Homes, w: World, p: nat, id: string) {
    forall o :: o in w.processes && o != p ==> Holds(w.processes[o]) !! home(id) && !HoldsServer(w.processes[o])
  }

  lemma TakesNext(home: Homes, w: World, p: nat, q: Process)
    requires p in w.processes && w.processes[p] == q && q.ContextRun? && q.pc.Locking? && LocalOk(home, w, q)
    requires Undisputed(home, w, p, q.id)
    ensures Apply(w, Acquire(p)) == Some(Goto(w, p, q.(held := q.held + 1, pc := if q.held + 1 == |q.want| then Check else Locking)))
    ensures Disciplined(home, w, Acquire(p))
  {
    hide WorkOk;
    var r := q.want[q.held];
    assert r in home(q.id) by { assert r in q.want; }
    forall o | o in w.processes ensures r !in Holds(w.processes[o]) {
      if o == p {
        forall j | 0 <= j < q.held ensures q.want[j] != r {
          LessIrreflexive(r);
          assert Less(q.want[j], q.want[q.held]);
        }
      }
    }
  }

  /** With nobody in the way, an operation gets every lock it wants. */
  lemma {:induction false} TakesLocks(home: Homes, w: World, p: nat, q: Process) returns (labels: seq<Label>, end: World)
    requires Inv(home, w) && p in w.processes && w.processes[p] == q && q.ContextRun? && q.pc.Locking?
    requires Undisputed(home, w, p, q.id)
    ensures OwnSteps(labels, p) && DisciplinedRun(home, w, labels) && Run(w, labels) == Some(end) && Inv(home, end)
    ensures end == w.(processes := w.processes[p := q.(held := |q.want|, pc := Check)])
    decreases |q.want| - q.held
  {
    hide Increasing, Less, WorkOk, GlobalOk, PcOk, OnlyMoves;
    assert LocalOk(home, w, q) && q.held < |q.want|;
    hide Undisputed, Inv, LocalOk, Apply, Disciplined, DisciplinedRun, Run, Holds;
    TakesNext(home, w, p, q);
    StepInv(home, w, Acquire(p));
    var next := Apply(w, Acquire(p)).value;
    var rest;
    if q.held + 1 == |q.want| {
      rest, end := [], next;
      NoMore(home, next);
    } else {
      rest, end := TakesLocks(home, next, p, next.processes[p]);
    }
    FirstStep(home, w, Acquire(p), next, rest, end);
    labels := [Acquire(p)] + rest;
  }

  lemma {:induction false} Chain(home: Homes, w: World, a: seq<Label>, mid: World, b: seq<Label>, end: World)
    requires DisciplinedRun(home, w, a) && Run(w, a) == Some(mid)
    requires DisciplinedRun(home, mid, b) && Run(mid, b) == Some(end)
    ensures DisciplinedRun(home, w, a + b) && Run(w, a + b) == Some(end)
    decreases |a|
  {
    hide Apply, Disciplined;
    if a == [] {
      assert a + b == b;
    } else {
      assert (a + b)[1..] == a[1..] + b;
      Chain(home, Apply(w, a[0]).value, a[1..], mid, b, end);
    }
  }

  /** Starting a retry or a removal of a recorded context, and reading its record under the locks. */
  lemma GetsToWork(home: Homes, w: World, p: nat, op: Operation, id: string) returns (labels: seq<Label>, end: World)
    requires Inv(home, w) && p !in w.processes && id in w.records && Undisputed(home, w, p, id)
    requires op.Remove? || (op.Retry? && w.records[id].state != Ready && w.records[id].state != Removing)
    ensures OwnSteps(labels, p) && DisciplinedRun(home, w, labels) && Run(w, labels) == Some(end) && Inv(home, end)
    ensures p in end.processes && AtIt(end.processes[p]) && !Creates(end, p)
    ensures end.processes[p].op == op && end.processes[p].id == id && end.processes[p].rec.members == w.records[id].members
  {
    hide Inv, Apply, Disciplined, DisciplinedRun, Run, Holds, LockNames, HoldsServer, Creates;
    var l := StartContext(p, op, id);
    StartsOnRecord(home, w, p, op, id);
    StepInv(home, w, l);
    var started := Apply(w, l).value;
    var locks, locked := TakesLocks(home, started, p, started.processes[p]);
    ChecksRecord(home, locked, p, locked.processes[p]);
    StepInv(home, locked, Act(p, Done));
    end := Apply(locked, Act(p, Done)).value;
    NoMore(home, end);
    FirstStep(home, locked, Act(p, Done), end, [], end);
    Chain(home, started, locks, locked, [Act(p, Done)] + [], end);
    FirstStep(home, w, l, started, locks + ([Act(p, Done)] + []), end);
    labels := [l] + (locks + ([Act(p, Done)] + []));
  }

  lemma StartsOnRecord(home: Homes, w: World, p: nat, op: Operation, id: string)
    requires Inv(home, w) && p !in w.processes && id in w.records && Undisputed(home, w, p, id) && !op.Create?
    ensures Disciplined(home, w, StartContext(p, op, id))
    ensures Apply(w, StartContext(p, op, id)) == Some(Goto(w, p,
              ContextRun(op, id, LockNames(RepositoriesOf(w.records[id].members)), 0, NO_RECORD, [], Locking)))
    ensures Undisputed(home, Apply(w, StartContext(p, op, id)).value, p, id)
  {
    hide GlobalOk, LocalOk, LockNames, RepositoriesOf, Holds;
    InForm(home, w, id);
  }

  lemma ChecksRecord(home: Homes, w: World, p: nat, q: Process)
    requires Inv(home, w) && p in w.processes && w.processes[p] == q && q.ContextRun? && q.pc.Check? && !q.op.Create?
    requires q.id in w.records
    requires q.op.Retry? ==> w.records[q.id].state != Ready && w.records[q.id].state != Removing
    ensures Disciplined(home, w, Act(p, Done)) && Apply(w, Act(p, Done)).Some?
    ensures var w' := Apply(w, Act(p, Done)).value;
            && p in w'.processes && AtIt(w'.processes[p]) && !Creates(w', p)
            && w'.processes[p].op == q.op && w'.processes[p].id == q.id
            && w'.processes[p].rec.members == w.records[q.id].members
  {
    hide GlobalOk, LocalOk, LockNames, RepositoriesOf, Holds;
    InForm(home, w, q.id);
  }

  lemma RetryAlone(home: Homes, w: World, p: nat, id: string) returns (labels: seq<Label>, end: World)
    requires Inv(home, w) && p !in w.processes && Undisputed(home, w, p, id)
    requires id in w.records && w.records[id].state != Ready && w.records[id].state != Removing
    ensures OwnSteps(labels, p) && DisciplinedRun(home, w, labels) && Run(w, labels) == Some(end)
    ensures id in end.records && end.records[id] == Record(w.records[id].members, Ready) && p !in end.processes
  {
    hide Inv, DisciplinedRun, Run, AtIt, Creates;
    var start, mid := GetsToWork(home, w, p, Retry, id);
    var work, last := Completes(home, mid, p);
    Chain(home, w, start, mid, work, last);
    labels, end := start + work, last;
  }

  lemma RemoveAlone(home: Homes, w: World, p: nat, id: string) returns (labels: seq<Label>, end: World)
    requires Inv(home, w) && p !in w.processes && Undisputed(home, w, p, id) && id in w.records
    ensures OwnSteps(labels, p) && DisciplinedRun(home, w, labels) && Run(w, labels) == Some(end)
    ensures id !in end.records && p !in end.processes && Inv(home, end)
  {
    hide Inv, DisciplinedRun, Run, AtIt, Creates;
    var start, mid := GetsToWork(home, w, p, Remove, id);
    var work, last := Completes(home, mid, p);
    Chain(home, w, start, mid, work, last);
    labels, end := start + work, last;
    RunInv(home, w, labels);
  }

  // ---------------------------------------------------------------- creating

  /** Everything a create needs: an id that is free and stands for these repositories, repositories with
      the commits the pins resolve to, and names nobody has. */
  ghost predicate CanCreate(home: Homes, w: World, id: string, pins: seq<string>, revisions: seq<string>) {
    && pins != [] && Unrepeated(pins) && ValidName(id) && !HasDotDot(id) && id !in w.records
    && (forall i :: 0 <= i < |pins| ==> ValidName(pins[i]))
    && (forall r :: r in home(id) <==> r in pins)
    && |revisions| == |pins| && (forall i :: 0 <= i < |pins| ==> |revisions[i]| == FULL_SHA && Resolves(w, pins[i], revisions[i]))
    && forall d, m, n :: d in w.records && m in PinnedMembers(id, pins, revisions) && n in w.records[d].members ==> Apart(m, n)
  }

  predicate Resolves(w: World, r: string, revision: string) {
    r in w.repositories && r in w.clones && w.clones[r].Whole? && revision in w.clones[r].commits
  }

  /** The create that is about to file its record. */
  function Filing(id: string, pins: seq<string>, revisions: seq<string>): Process
    requires |pins| == |revisions| && forall i :: 0 <= i < |revisions| ==> |revisions[i]| == FULL_SHA
  {
    var want := LockNames(pins);
    Reads(ContextRun(Create(pins), id, want, |want|, NO_RECORD, [], Check), Record(PinnedMembers(id, pins, revisions), Creating), Write(Creating))
  }

  lemma CreateStarts(home: Homes, w: World, p: nat, id: string, pins: seq<string>, revisions: seq<string>)
    requires p !in w.processes && Undisputed(home, w, p, id) && CanCreate(home, w, id, pins, revisions)
    ensures Disciplined(home, w, StartContext(p, Create(pins), id))
    ensures Apply(w, StartContext(p, Create(pins), id)) == Some(Goto(w, p, ContextRun(Create(pins), id, LockNames(pins), 0, NO_RECORD, [], Locking)))
  {
    hide LockNames, ValidName, HasDotDot, Holds, PinnedMembers, Resolves;
    assert !ServerRuns(w);
  }

  lemma CreateChecks(home: Homes, w: World, locked: World, p: nat, id: string, pins: seq<string>, revisions: seq<string>)
    requires CanCreate(home, w, id, pins, revisions)
    requires locked == Goto(w, p, ContextRun(Create(pins), id, LockNames(pins), |LockNames(pins)|, NO_RECORD, [], Check))
    ensures |revisions| == |pins| && forall i :: 0 <= i < |pins| ==> |revisions[i]| == FULL_SHA
    ensures Disciplined(home, locked, Act(p, Resolved(revisions)))
    ensures Apply(locked, Act(p, Resolved(revisions))) == Some(Goto(w, p, Filing(id, pins, revisions)))
  {
    hide LockNames, ValidName, HasDotDot, PinnedMembers, RepositoriesOf;
    assert forall q: Process :: Goto(Goto(w, p, locked.processes[p]), p, q) == Goto(w, p, q);
  }

  lemma FilingIsFresh(home: Homes, w: World, p: nat, id: string, pins: seq<string>, revisions: seq<string>)
    requires CanCreate(home, w, id, pins, revisions)
    ensures var w' := Goto(w, p, Filing(id, pins, revisions)); AtIt(w'.processes[p]) && FreshNames(w', w'.processes[p])
  {
    hide LockNames, PinnedMembers, RepositoriesOf, Apart, Resolves;
  }

  /** A create whose tools succeed ends with the context READY over exactly its pins. */
  lemma CreateAlone(home: Homes, w: World, p: nat, id: string, pins: seq<string>, revisions: seq<string>) returns (labels: seq<Label>, end: World)
    requires Inv(home, w) && p !in w.processes && Undisputed(home, w, p, id) && CanCreate(home, w, id, pins, revisions)
    ensures OwnSteps(labels, p) && DisciplinedRun(home, w, labels) && Run(w, labels) == Some(end)
    ensures id in end.records && end.records[id] == Record(PinnedMembers(id, pins, revisions), Ready)
    ensures p !in end.processes && LeavesAlone(w, end, p, id)
  {
    hide Inv, Apply, Disciplined, DisciplinedRun, Run, AtIt, FreshNames, CanCreate, Undisputed, LeavesAlone, Filing, Finished, LockNames;
    var l := StartContext(p, Create(pins), id);
    CreateStarts(home, w, p, id, pins, revisions);
    StepInv(home, w, l);
    var started := Apply(w, l).value;
    StillUndisputed(home, w, p, id, started.processes[p]);
    var locks, locked := TakesLocks(home, started, p, started.processes[p]);
    LockedWorld(w, p, id, pins, locked);
    CreateChecks(home, w, locked, p, id, pins, revisions);
    var check := Act(p, Resolved(revisions));
    StepInv(home, locked, check);
    var filing := Apply(locked, check).value;
    FilingIsFresh(home, w, p, id, pins, revisions);
    var work, last := Completes(home, filing, p);
    FirstStep(home, locked, check, filing, work, last);
    Chain(home, started, locks, locked, [check] + work, last);
    FirstStep(home, w, l, started, locks + ([check] + work), last);
    labels, end := [l] + (locks + ([check] + work)), last;
    FilingFinishes(w, filing, end, p, id, pins, revisions);
  }

  lemma StillUndisputed(home: Homes, w: World, p: nat, id: string, q: Process)
    requires Undisputed(home, w, p, id)
    ensures Undisputed(home, Goto(w, p, q), p, id)
  {
    hide Holds, HoldsServer;
  }

  lemma LockedWorld(w: World, p: nat, id: string, pins: seq<string>, locked: World)
    requires var want := LockNames(pins);
             var started := Goto(w, p, ContextRun(Create(pins), id, want, 0, NO_RECORD, [], Locking));
             locked == started.(processes := started.processes[p := started.processes[p].(held := |want|, pc := Check)])
    ensures locked == Goto(w, p, ContextRun(Create(pins), id, LockNames(pins), |LockNames(pins)|, NO_RECORD, [], Check))
  {
    hide LockNames;
  }

  lemma FilingFinishes(w: World, filing: World, end: World, p: nat, id: string, pins: seq<string>, revisions: seq<string>)
    requires |pins| == |revisions| && forall i :: 0 <= i < |revisions| ==> |revisions[i]| == FULL_SHA
    requires p !in w.processes && filing == Goto(w, p, Filing(id, pins, revisions))
    requires Finished(end, Filing(id, pins, revisions)) && LeavesAlone(filing, end, p, Filing(id, pins, revisions).id)
    ensures id in end.records && end.records[id] == Record(PinnedMembers(id, pins, revisions), Ready)
    ensures LeavesAlone(w, end, p, id)
  {
    hide LockNames, PinnedMembers, RepositoriesOf, CommitsKept;
    assert filing.processes - {p} == w.processes - {p};
  }

  // ---------------------------------------------------------------- from any state at all

  /** Somebody has a lock the context needs, or serves it. */
  ghost predicate InTheWay(home: Homes, w: World, o: nat, id: string) {
    o in w.processes && (!(Holds(w.processes[o]) !! home(id)) || HoldsServer(w.processes[o]))
  }

  /** First some processes that are in the way are killed, then one process does everything. */
  ghost predicate WayThenOwn(home: Homes, w: World, labels: seq<Label>, p: nat, id: string) {
    forall i :: 0 <= i < |labels| ==> if labels[i].Crash? then InTheWay(home, w, labels[i].p, id) else labels[i].p == p
  }

  lemma {:induction false} ClearsTheWay(home: Homes, w: World, p: nat, id: string) returns (labels: seq<Label>, end: World)
    requires Inv(home, w) && p !in w.processes
    ensures DisciplinedRun(home, w, labels) && Run(w, labels) == Some(end) && Inv(home, end)
    ensures end == w.(processes := end.processes) && p !in end.processes && Undisputed(home, end, p, id)
    ensures forall o :: o in end.processes ==> o in w.processes && end.processes[o] == w.processes[o]
    ensures forall i :: 0 <= i < |labels| ==> labels[i].Crash? && InTheWay(home, w, labels[i].p, id)
    ensures Undisputed(home, w, p, id) ==> labels == []
    decreases |w.processes|
  {
    hide Inv, Holds, HoldsServer, Apply, Disciplined, Run, DisciplinedRun;
    if o :| InTheWay(home, w, o, id) {
      var next := Exit(w, o);
      Killed(home, w, o);
      StepInv(home, w, Crash(o));
      Fewer(w.processes, o);
      var rest;
      rest, end := ClearsTheWay(home, next, p, id);
      FirstStep(home, w, Crash(o), next, rest, end);
      labels := [Crash(o)] + rest;
    } else {
      forall o | o in w.processes && o != p ensures Holds(w.processes[o]) !! home(id) && !HoldsServer(w.processes[o]) {
        assert !InTheWay(home, w, o, id);
      }
      NoMore(home, w);
      labels, end := [], w;
    }
  }

  lemma Killed(home: Homes, w: World, o: nat)
    requires o in w.processes
    ensures Apply(w, Crash(o)) == Some(Exit(w, o)) && Disciplined(home, w, Crash(o))
  {}

  lemma Fewer<T>(m: map<nat, T>, o: nat)
    requires o in m
    ensures |m - {o}| < |m|
  {
    assert (m - {o}).Keys == m.Keys - {o};
    assert |(m - {o}).Keys| == |m.Keys| - 1;
  }

  lemma JoinsWay(home: Homes, w: World, clear: seq<Label>, mid: World, own: seq<Label>, end: World, p: nat, id: string)
    requires DisciplinedRun(home, w, clear) && Run(w, clear) == Some(mid)
    requires DisciplinedRun(home, mid, own) && Run(mid, own) == Some(end) && OwnSteps(own, p)
    requires forall i :: 0 <= i < |clear| ==> clear[i].Crash? && InTheWay(home, w, clear[i].p, id)
    ensures DisciplinedRun(home, w, clear + own) && Run(w, clear + own) == Some(end) && WayThenOwn(home, w, clear + own, p, id)
  {
    hide DisciplinedRun, Run, InTheWay;
    Chain(home, w, clear, mid, own, end);
  }

  /** From every state there is: a context that is neither READY nor being removed can be brought to
      READY at exactly the members and revisions it was recorded with, by a retry alone once whoever is
      in its way is gone - whatever worktrees, graphs, refs and shards earlier runs left and wherever
      they were killed. */
  lemma RetryRecovers(home: Homes, w: World, p: nat, id: string) returns (labels: seq<Label>, end: World)
    requires Inv(home, w) && p !in w.processes
    requires id in w.records && w.records[id].state != Ready && w.records[id].state != Removing
    ensures DisciplinedRun(home, w, labels) && Run(w, labels) == Some(end) && WayThenOwn(home, w, labels, p, id)
    ensures id in end.records && end.records[id] == Record(w.records[id].members, Ready) && p !in end.processes
  {
    hide Inv, DisciplinedRun, Run, WayThenOwn, Undisputed;
    var clear, mid := ClearsTheWay(home, w, p, id);
    var own, last := RetryAlone(home, mid, p, id);
    JoinsWay(home, w, clear, mid, own, last, p, id);
    labels, end := clear + own, last;
  }

  /** A removal, of a context in any state and however often interrupted before, can be finished. */
  lemma RemoveConverges(home: Homes, w: World, p: nat, id: string) returns (labels: seq<Label>, end: World)
    requires Inv(home, w) && p !in w.processes && id in w.records
    ensures DisciplinedRun(home, w, labels) && Run(w, labels) == Some(end) && WayThenOwn(home, w, labels, p, id)
    ensures id !in end.records && p !in end.processes
    ensures forall k: (string, string) :: k.1 == id ==> k !in end.trees
  {
    hide Inv, DisciplinedRun, Run, WayThenOwn, Undisputed;
    var clear, mid := ClearsTheWay(home, w, p, id);
    var own, last := RemoveAlone(home, mid, p, id);
    JoinsWay(home, w, clear, mid, own, last, p, id);
    labels, end := clear + own, last;
    Orphanless(home, end, id);
  }

  /** A create with a free id, commits to pin and names nobody has can end READY over exactly its pins. */
  lemma CreateSucceeds(home: Homes, w: World, p: nat, id: string, pins: seq<string>, revisions: seq<string>) returns (labels: seq<Label>, end: World)
    requires Inv(home, w) && p !in w.processes && CanCreate(home, w, id, pins, revisions)
    ensures DisciplinedRun(home, w, labels) && Run(w, labels) == Some(end) && WayThenOwn(home, w, labels, p, id)
    ensures id in end.records && end.records[id] == Record(PinnedMembers(id, pins, revisions), Ready) && p !in end.processes
    ensures forall m :: m in end.records[id].members ==> Built(end, id, m)
  {
    hide Inv, DisciplinedRun, Run, WayThenOwn, Undisputed, Resolves, Apart;
    var clear, mid := ClearsTheWay(home, w, p, id);
    assert CanCreate(home, mid, id, pins, revisions) by { StillCreatable(home, w, mid, id, pins, revisions); }
    hide CanCreate, Built;
    var own, last := CreateAlone(home, mid, p, id, pins, revisions);
    JoinsWay(home, w, clear, mid, own, last, p, id);
    labels, end := clear + own, last;
    RunInv(home, w, labels);
    ReadyBuilt(home, end, id);
  }

  lemma StillCreatable(home: Homes, w: World, mid: World, id: string, pins: seq<string>, revisions: seq<string>)
    requires CanCreate(home, w, id, pins, revisions) && mid == w.(processes := mid.processes)
    ensures CanCreate(home, mid, id, pins, revisions)
  {}

  lemma ReadyBuilt(home: Homes, w: World, id: string)
    requires Inv(home, w) && id in w.records && w.records[id].state == Ready
    ensures forall m :: m in w.records[id].members ==> Built(w, id, m)
  {
    hide LocalOk;
  }

  lemma Orphanless(home: Homes, w: World, id: string)
    requires Inv(home, w) && id !in w.records
    ensures forall k: (string, string) :: k.1 == id ==> k !in w.trees
  {}
}
