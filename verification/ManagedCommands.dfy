/** The context commands as they run: a create, a retry or a removal that holds its locks, one call of
    a tool after another, stage by stage and member by member. Every method is proved to take steps
    of the system as `Managed` has them, so what holds of every run holds of these; in between, other
    processes may step too, which the methods leave out. */
module ManagedCommands {
  import opened Options
  import opened Names
  import opened NameOrder
  import opened Lifecycle
  import opened Managed
  import opened ManagedInvariant
  import opened ManagedTheorems
  import opened ManagedSafety
  import opened Rebuild
  import ManagedSteps
  import opened ManagedRecovery

  /** A run in which one process takes the steps of its operation. */
  ghost predicate OwnActs(labels: seq<Label>, p: nat) {
    forall i :: 0 <= i < |labels| ==> labels[i].Act? && labels[i].p == p
  }

  lemma OneStepMore(start: World, labels: seq<Label>, p: nat, before: World, out: Outcome, after: World)
    requires Run(start, labels) == Some(before) && OwnActs(labels, p) && Apply(before, Act(p, out)) == Some(after)
    ensures Run(start, labels + [Act(p, out)]) == Some(after) && OwnActs(labels + [Act(p, out)], p)
  {
    hide Apply;
    RunAppend(start, labels, [Act(p, out)]);
    RunOne(before, Act(p, out));
  }

  /** A step that builds or takes apart an artifact. */
  lemma OneCallMore(start: World, labels: seq<Label>, p: nat, before: World, q: Process, out: Outcome, after: World)
    requires Run(start, labels) == Some(before) && OwnActs(labels, p)
    requires p in before.processes && before.processes[p] == q && q.ContextRun? && ActArtifact(before, p, q, out) == Some(after)
    ensures Run(start, labels + [Act(p, out)]) == Some(after) && OwnActs(labels + [Act(p, out)], p)
  {
    ArtifactApplies(before, p, q, out);
    hide Apply, ActArtifact;
    OneStepMore(start, labels, p, before, out, after);
  }

  lemma ArtifactApplies(w: World, p: nat, q: Process, out: Outcome)
    requires p in w.processes && w.processes[p] == q && q.ContextRun? && ActArtifact(w, p, q, out).Some?
    ensures Apply(w, Act(p, out)) == ActArtifact(w, p, q, out)
  {
    hide DoPrepare, DoIndex, DoGraph, DoVerify, DoDropGraph, DoDropTree, DoDropRef;
  }

  ghost predicate OthersSame<K(!new), V(!new)>(a: map<K, V>, b: map<K, V>, k: K) {
    forall x :: x != k ==> Same(a, b, x)
  }

  lemma LeftOnly<K(!new), V(!new)>(m: map<K, V>, k: K, left: Option<V>)
    ensures OthersSame(m, Leave(m, k, left), k)
  {}

  lemma Unchanged<K(!new), V(!new)>(m: map<K, V>, k: K)
    ensures OthersSame(m, m - {k}, k) && OthersSame(m, m, k)
  {}

  lemma ChangedTo<K(!new), V(!new)>(m: map<K, V>, k: K, v: V)
    ensures OthersSame(m, m[k := v], k)
  {}

  lemma SameOn<K(!new), V(!new)>(a: map<K, V>, b: map<K, V>, d: map<K, V>, k: K)
    requires OthersSame(a, b, k) && OthersSame(b, d, k)
    ensures OthersSame(a, d, k)
  {
    forall x | x != k ensures Same(a, d, x) {
      assert Same(a, b, x) && Same(b, d, x);
    }
  }

  lemma OthersSameBoth(a: map<string, Clone>, b: map<string, Clone>, c: map<string, map<string, string>>, d: map<string, map<string, string>>, k: string)
    requires OthersSame(a, b, k) && OthersSame(c, d, k)
    ensures forall x :: x != k ==> Same(a, b, x) && Same(c, d, x)
  {}

  lemma RemovalDone(w: World, w': World, id: string, c: Record)
    requires id in w.records && c == Record(w.records[id].members, Removing)
    requires w'.records == w.records[id := c] - {id} && w'.repositories == w.repositories
    requires w'.graphs == w.graphs - GraphsOf(c.members) && w'.trees == w.trees - TreesOf(id, c.members)
    requires AllRebuilt(w.records[id := c], WithoutRefs(w.clones, c.members), w'.clones, w.shards, w'.shards, LockNames(RepositoriesOf(c.members)))
    ensures RemovalLeaves(w, w', id)
  {
    hide AllRebuilt, LockNames, RepositoriesOf, GraphsOf, TreesOf, WithoutRefs;
    assert w.records[id := c] - {id} == w.records - {id};
  }

  lemma RebuiltWithoutClone(records: map<string, Record>, clones: map<string, Clone>, shards: map<string, map<string, string>>, r: string)
    requires r !in clones
    ensures RebuiltAt(records, clones, clones, shards, shards - {r}, r)
  {}

  lemma RebuiltEmpty(records: map<string, Record>, clones: map<string, Clone>, clones': map<string, Clone>, shards: map<string, map<string, string>>, r: string)
    requires r in clones && Wanted(records, r) == {} && RefsFollow(clones, clones', r, {})
    ensures RebuiltAt(records, clones, clones', shards, shards - {r}, r)
  {}

  lemma RebuiltWhole(records: map<string, Record>, clones: map<string, Clone>, clones': map<string, Clone>, shards: map<string, map<string, string>>, r: string)
    requires r in clones && Wanted(records, r) != {} && RefsFollow(clones, clones', r, Wanted(records, r))
    requires r in clones' && clones'[r].Whole? && Branches(Wanted(records, r)) <= clones'[r].refs.Keys
    ensures RebuiltAt(records, clones, clones', shards, shards[r := map b | b in Branches(Wanted(records, r)) :: clones'[r].refs[b]], r)
  {}

  lemma Rewritten(records: map<string, Record>, id: string, a: Record, b: Record)
    ensures records[id := a][id := b] == records[id := b]
  {}

  class Command {
    const repositories: map<string, RepositoryState>
    var records: map<string, Record>
    var clones: map<string, Clone>
    var trees: map<(string, string), Artifact>
    var shards: map<string, map<string, string>>
    var graphs: map<string, Artifact>

    const id: string
    const op: Operation
    const want: seq<string>
    /** The record in hand, and its repositories in order. */
    var c: Record
    var order: seq<string>

    /** What the tools answer, call by call. */
    const answers: nat -> Outcome
    var calls: nat

    /** The repositories each id stands for. */
    ghost const home: Homes

    ghost const others: map<nat, Process>
    ghost const p: nat
    ghost const start: World
    /** Where the command is, until it has ended. */
    ghost var pc: Option<Pc>
    ghost var labels: seq<Label>

    ghost function Me(at: Pc): Process
      reads this`c, this`order
    {
      ContextRun(op, id, want, |want|, c, order, at)
    }

    ghost function Now(): World
      reads this`records, this`clones, this`trees, this`shards, this`graphs, this`c, this`order, this`pc
    {
      World(records, repositories, clones, trees, shards, graphs, if pc.Some? then others[p := Me(pc.value)] else others)
    }

    /** What has been done so far is a run of the system. */
    ghost predicate Valid()
      reads this`records, this`clones, this`trees, this`shards, this`graphs, this`c, this`order, this`pc, this`labels
    {
      && p !in others && Run(start, labels) == Some(Now()) && OwnActs(labels, p)
      && p in start.processes && start.processes[p].ContextRun? && start.processes[p].op == op && start.processes[p].id == id
    }

    /** The data directory is in order, with this command where it is in it. */
    ghost predicate InOrder()
      reads this`records, this`clones, this`trees, this`shards, this`graphs, this`c, this`order, this`pc
    {
      Inv(home, Now())
    }

    /** None of these calls of a tool failed. */
    ghost predicate NoneFailed(first: nat, last: nat) {
      forall k :: first <= k < last ==> !answers(k).Broken?
    }

    /** What began at that call has succeeded only if no tool failed, and, in a directory that was in
        order and is still, whenever no tool failed. */
    ghost predicate Decided(first: nat, inOrder: bool, ok: bool)
      reads this
    {
      && first <= calls && (inOrder ==> InOrder())
      && (ok ==> NoneFailed(first, calls)) && (inOrder && NoneFailed(first, calls) ==> ok)
    }

    lemma OneCallDecides(first: nat, inOrder: bool, ok: bool)
      requires calls == first + 1 && (inOrder ==> InOrder())
      requires ok ==> !answers(first).Broken?
      requires inOrder && !answers(first).Broken? ==> ok
      ensures Decided(first, inOrder, ok)
    {}

    /** The record in hand shares no name with another. */
    ghost predicate NamesFresh()
      reads this`records, this`c
    {
      forall d, m, n :: d in records && d != id && m in c.members && n in records[d].members ==> Apart(m, n)
    }

    /** A command that has just been given its locks. */
    constructor (w: World, at: nat, tools: nat -> Outcome, ghost homes: Homes)
      requires at in w.processes && w.processes[at].ContextRun? && w.processes[at].pc.Check?
      requires w.processes[at].held == |w.processes[at].want|
      ensures Valid() && Now() == w && start == w && p == at && pc == Some(Check)
      ensures id == w.processes[at].id && op == w.processes[at].op && answers == tools && calls == 0 && home == homes
    {
      var q := w.processes[at];
      repositories, records, clones, trees, shards, graphs := w.repositories, w.records, w.clones, w.trees, w.shards, w.graphs;
      id, op, want, c, order := q.id, q.op, q.want, q.rec, q.order;
      answers, calls, home := tools, 0, homes;
      others, p, start, pc, labels := w.processes - {at}, at, w, Some(Check), [];
      new;
      assert (w.processes - {at})[at := q] == w.processes;
      assert Me(Check) == q;
    }

    method Answer() returns (out: Outcome)
      modifies this`calls
      ensures out == answers(old(calls)) && calls == old(calls) + 1
    {
      out := answers(calls);
      calls := calls + 1;
    }

    // In a directory in order nothing an earlier run left is in the way of any call.

    lemma ReadyToPrepare(i: nat)
      requires Valid() && pc == Some(Prepare(i)) && i < |c.members|
      ensures InOrder() ==> (c.members[i].repository, id) !in trees && HasCommit(clones, c.members[i])
    {
      hide Inv, Run, OwnActs, HasCommit;
      MayPrepare(home, Now(), p, i);
    }

    lemma ReadyToGraph(i: nat)
      requires Valid() && pc == Some(BuildGraph(i)) && i < |c.members|
      ensures InOrder() ==> (c.members[i].repository, id) in trees
    {
      hide Inv, Run, OwnActs;
      MayGraph(home, Now(), p, i);
    }

    lemma ReadyToVerify(i: nat)
      requires Valid() && pc == Some(Verify(i)) && i < |c.members|
      ensures InOrder() ==> Verified(Now(), id, c.members[i]) && VerifyIdentity(id, c.members)
    {
      hide Inv, Run, OwnActs, VerifyIdentity, Verified;
      MayVerify(home, Now(), p, i);
    }

    lemma ReadyToIndex(i: nat, sub: Indexing)
      requires Valid() && pc == Some(Index(i, sub)) && i < |order|
      ensures InOrder() && sub.Putting? ==> order[i] in clones && clones[order[i]].Whole? && forall e :: e in sub.todo ==> e.1 in clones[order[i]].commits
    {
      hide Inv, Run, OwnActs;
      MayIndex(home, Now(), p, i, sub);
    }

    lemma ReadyToDrop(i: nat)
      requires Valid() && (pc == Some(DropGraph(i)) || pc == Some(DropRef(i))) && i < |c.members|
      ensures InOrder() ==> c.members[i].repository in repositories && c.members[i].repository in clones && clones[c.members[i].repository].Whole?
    {
      hide Inv, Run, OwnActs;
      MayDrop(home, Now(), p, i);
    }

    // -------------------------------------------------------------- the record

    lemma FreshWhenApart()
      ensures ApartFrom(records, c.members) ==> NamesFresh()
    {}

    lemma FreshHere()
      requires Valid() && pc.Some?
      ensures NamesFresh() ==> FreshNames(Now(), Me(pc.value))
    {
      hide Run, OwnActs;
    }

    /** Writes the next state down before the stage it names runs. */
    method Put(next: Stage)
      requires Valid() && pc == Some(Write(next)) && (Restarts(op, next) || Advances(c.state, next))
      modifies this`records, this`c, this`pc, this`labels
      ensures Valid()
      ensures c == old(c).(state := next) && records == old(records)[id := c]
      ensures pc == AfterWrite(op, c, order, next)
      ensures old(InOrder()) && (next == Creating ==> old(NamesFresh())) ==> InOrder()
    {
      hide Run, Apply, OwnActs, AfterWrite, Advances, Restarts, Inv, NamesFresh, FreshNames;
      ghost var before, q := Now(), Me(pc.value);
      FreshHere();
      c := c.(state := next);
      records := records[id := c];
      pc := AfterWrite(op, c, order, next);
      Alone(others, p, q, if pc.Some? then Me(pc.value) else q);
      WrittenOnce(home, start, labels, p, before, q, next, pc, Now());
      labels := labels + [Act(p, Done)];
    }

    method Advance(next: Stage) returns (ok: bool)
      requires Valid() && pc == Some(Write(next)) && !Restarts(op, next)
      modifies this`records, this`c, this`pc, this`labels
      ensures Valid()
      ensures ok <==> Advances(old(c.state), next)
      ensures ok ==> c == old(c).(state := next) && records == old(records)[id := c] && pc == AfterWrite(op, c, order, next)
      ensures !ok ==> c == old(c) && records == old(records) && pc == None
      ensures old(InOrder()) && next != Creating ==> InOrder()
    {
      hide Run, AfterWrite, Advances, Restarts, Inv, Apply;
      if !Advances(c.state, next) {
        ghost var before, q := Now(), Me(pc.value);
        pc := None;
        Alone(others, p, q, q);
        Refused(before, p, q, next, Now());
        OneStepMore(start, labels, p, before, Done, Now());
        OrderKept(home, before, p, Done, Now());
        labels := labels + [Act(p, Done)];
        return false;
      }
      Put(next);
      return true;
    }

    // -------------------------------------------------------------- building

    /** What one call of a tool makes of the artifacts, and where the command goes on or that it ends. */
    method Take(newClones: map<string, Clone>, newTrees: map<(string, string), Artifact>,
                newShards: map<string, map<string, string>>, newGraphs: map<string, Artifact>, ghost next: Option<Pc>, ghost said: Outcome)
      requires Valid() && pc.Some?
      requires ActArtifact(Now(), p, Me(pc.value), said) ==
               Some(Moved(Now().(clones := newClones, trees := newTrees, shards := newShards, graphs := newGraphs), p, Me(pc.value), next))
      modifies this`clones, this`trees, this`shards, this`graphs, this`pc, this`labels
      ensures Valid() && pc == next
      ensures clones == newClones && trees == newTrees && shards == newShards && graphs == newGraphs
      ensures old(InOrder()) ==> InOrder()
    {
      hide Run, Apply, OwnActs, ActArtifact, Inv;
      ghost var before, q := Now(), Me(pc.value);
      clones, trees, shards, graphs := newClones, newTrees, newShards, newGraphs;
      pc := next;
      Alone(others, p, q, if pc.Some? then Me(pc.value) else q);
      OneCallMore(start, labels, p, before, q, said, Now());
      CallKeepsOrder(home, before, p, q, said, Now());
      labels := labels + [Act(p, said)];
    }

    method TakeTrees(newTrees: map<(string, string), Artifact>, ghost next: Option<Pc>, ghost said: Outcome)
      requires Valid() && pc.Some?
      requires ActArtifact(Now(), p, Me(pc.value), said) == Some(Moved(Now().(trees := newTrees), p, Me(pc.value), next))
      modifies this`clones, this`trees, this`shards, this`graphs, this`pc, this`labels
      ensures Valid() && pc == next && trees == newTrees
      ensures clones == old(clones) && shards == old(shards) && graphs == old(graphs)
      ensures old(InOrder()) ==> InOrder()
    {
      hide Run, OwnActs, ActArtifact, Inv, InOrder;
      Take(clones, newTrees, shards, graphs, next, said);
    }

    method TakeGraphs(newGraphs: map<string, Artifact>, ghost next: Option<Pc>, ghost said: Outcome)
      requires Valid() && pc.Some?
      requires ActArtifact(Now(), p, Me(pc.value), said) == Some(Moved(Now().(graphs := newGraphs), p, Me(pc.value), next))
      modifies this`clones, this`trees, this`shards, this`graphs, this`pc, this`labels
      ensures Valid() && pc == next && graphs == newGraphs
      ensures clones == old(clones) && trees == old(trees) && shards == old(shards)
      ensures old(InOrder()) ==> InOrder()
    {
      hide Run, OwnActs, ActArtifact, Inv, InOrder;
      Take(clones, trees, shards, newGraphs, next, said);
    }

    method TakeClones(newClones: map<string, Clone>, ghost next: Option<Pc>, ghost said: Outcome)
      requires Valid() && pc.Some?
      requires ActArtifact(Now(), p, Me(pc.value), said) == Some(Moved(Now().(clones := newClones), p, Me(pc.value), next))
      modifies this`clones, this`trees, this`shards, this`graphs, this`pc, this`labels
      ensures Valid() && pc == next && clones == newClones
      ensures trees == old(trees) && shards == old(shards) && graphs == old(graphs)
      ensures old(InOrder()) ==> InOrder()
    {
      hide Run, OwnActs, ActArtifact, Inv, InOrder;
      Take(newClones, trees, shards, graphs, next, said);
    }

    /** Checks one member out; whatever a failure leaves stays behind. */
    method PrepareSource(i: nat) returns (ok: bool)
      requires Valid() && pc == Some(Prepare(i)) && i < |c.members| && !op.Remove?
      modifies this`clones, this`trees, this`shards, this`graphs, this`pc, this`labels, this`calls
      ensures Valid() && clones == old(clones) && shards == old(shards) && graphs == old(graphs)
      ensures ok ==> pc == Some(AfterPrepare(c, i + 1)) && trees == old(trees)[(c.members[i].repository, id) := At(c.members[i].revision)]
      ensures !ok ==> pc == Some(Write(Failed)) && OthersSame(old(trees), trees, (c.members[i].repository, id))
      ensures calls == old(calls) + 1
      ensures ok <==> !answers(old(calls)).Broken? && (c.members[i].repository, id) !in old(trees) && HasCommit(clones, c.members[i])
      ensures answers(old(calls)).Broken? ==> trees == Leave(old(trees), (c.members[i].repository, id), answers(old(calls)).left)
      ensures Decided(old(calls), old(InOrder()), ok)
    {
      hide Run, OwnActs, AfterPrepare, ActArtifact, Leave, HasCommit, OthersSame, Inv, InOrder, Decided;
      ghost var inOrder := InOrder();
      ReadyToPrepare(i);
      var m := c.members[i];
      var key := (m.repository, id);
      var out := Answer();
      ok := !out.Broken? && key !in trees && HasCommit(clones, m);
      if ok {
        PrepareActs(Now(), p, Me(pc.value), i, Done, trees[key := At(m.revision)], Some(AfterPrepare(c, i + 1)));
        TakeTrees(trees[key := At(m.revision)], Some(AfterPrepare(c, i + 1)), Done);
      } else {
        var left := if out.Broken? then out.left else if key in trees then Some(trees[key]) else None;
        LeftOnly(trees, key, left);
        PrepareActs(Now(), p, Me(pc.value), i, Broken(left), Leave(trees, key, left), Some(Write(Failed)));
        TakeTrees(Leave(trees, key, left), Some(Write(Failed)), Broken(left));
      }
      OneCallDecides(old(calls), inOrder, ok);
    }

    /** Indexes one member's checkout under its generated name. */
    method IndexGraph(i: nat) returns (ok: bool)
      requires Valid() && pc == Some(BuildGraph(i)) && i < |c.members| && !op.Remove?
      modifies this`clones, this`trees, this`shards, this`graphs, this`pc, this`labels, this`calls
      ensures Valid() && clones == old(clones) && trees == old(trees) && shards == old(shards)
      ensures ok ==> pc == Some(AfterGraph(c, i + 1)) && (c.members[i].repository, id) in trees
      ensures ok ==> graphs == old(graphs)[c.members[i].graphRef := trees[(c.members[i].repository, id)]]
      ensures !ok ==> pc == Some(Write(Failed)) && OthersSame(old(graphs), graphs, c.members[i].graphRef)
      ensures calls == old(calls) + 1
      ensures ok <==> !answers(old(calls)).Broken? && (c.members[i].repository, id) in trees
      ensures answers(old(calls)).Broken? ==> graphs == Leave(old(graphs), c.members[i].graphRef, answers(old(calls)).left)
      ensures Decided(old(calls), old(InOrder()), ok)
    {
      hide Run, OwnActs, AfterGraph, ActArtifact, Leave, OthersSame, Inv, InOrder, Decided;
      ghost var inOrder := InOrder();
      ReadyToGraph(i);
      var m := c.members[i];
      var key := (m.repository, id);
      var out := Answer();
      ok := !out.Broken? && key in trees;
      if ok {
        GraphActs(Now(), p, Me(pc.value), i, Done, graphs[m.graphRef := trees[key]], Some(AfterGraph(c, i + 1)));
        TakeGraphs(graphs[m.graphRef := trees[key]], Some(AfterGraph(c, i + 1)), Done);
      } else {
        var left := if out.Broken? then out.left else if m.graphRef in graphs then Some(graphs[m.graphRef]) else None;
        LeftOnly(graphs, m.graphRef, left);
        GraphActs(Now(), p, Me(pc.value), i, Broken(left), Leave(graphs, m.graphRef, left), Some(Write(Failed)));
        TakeGraphs(Leave(graphs, m.graphRef, left), Some(Write(Failed)), Broken(left));
      }
      OneCallDecides(old(calls), inOrder, ok);
    }

    /** Everything of one member is at its revision: commit, checkout and search ref, and there is a shard
        of its repository and a graph of its name. */
    predicate Stands(m: Member)
      reads this`clones, this`trees, this`shards, this`graphs
    {
      && m.repository in clones && clones[m.repository].Whole? && m.revision in clones[m.repository].commits
      && (m.repository, id) in trees && trees[(m.repository, id)] == At(m.revision)
      && m.branch in clones[m.repository].refs && clones[m.repository].refs[m.branch] == m.revision
      && m.repository in shards && m.graphRef in graphs
    }

    lemma StandsVerified(m: Member)
      ensures Stands(m) <==> Verified(Now(), id, m)
    {}

    /** Asks every artifact of one member itself, and of the last one the record's names too. */
    method VerifyMember(i: nat) returns (ok: bool)
      requires Valid() && pc == Some(Verify(i)) && i < |c.members| && !op.Remove?
      modifies this`clones, this`trees, this`shards, this`graphs, this`pc, this`labels, this`calls
      ensures Valid() && clones == old(clones) && trees == old(trees) && shards == old(shards) && graphs == old(graphs)
      ensures ok ==> pc == Some(AfterVerify(c, i + 1)) && Verified(old(Now()), id, c.members[i])
      ensures ok && i + 1 == |c.members| ==> VerifyIdentity(id, c.members)
      ensures !ok ==> pc == Some(Write(Failed))
      ensures calls == old(calls) + 1
      ensures ok <==> !answers(old(calls)).Broken? && Stands(c.members[i]) && (i + 1 == |c.members| ==> VerifyIdentity(id, c.members))
      ensures Decided(old(calls), old(InOrder()), ok)
    {
      hide Run, OwnActs, AfterVerify, ActArtifact, VerifyIdentity, Inv, InOrder, Stands, Verified, Decided;
      ghost var inOrder := InOrder();
      ReadyToVerify(i);
      StandsVerified(c.members[i]);
      var m := c.members[i];
      var out := Answer();
      ok := !out.Broken? && Stands(m) && (i + 1 == |c.members| ==> VerifyIdentity(id, c.members));
      ghost var next := if ok then AfterVerify(c, i + 1) else Write(Failed);
      ghost var said := if ok then Done else Broken(None);
      VerifyActs(Now(), p, Me(pc.value), i, said, next);
      Take(clones, trees, shards, graphs, Some(next), said);
      OneCallDecides(old(calls), inOrder, ok);
    }

    // -------------------------------------------------------------- indexing

    lemma ReadsIndex(i: nat)
      requires Valid() && pc == Some(Index(i, Reading)) && i < |order|
      ensures DoIndex(Now(), p, Me(Index(i, Reading)), i, Reading, Done) ==
                if order[i] !in clones then Some(Goto(Now().(shards := shards - {order[i]}), p, Me(AfterIndex(op, order, i + 1))))
                else Some(Goto(Now(), p, Me(Index(i, Putting(Wanted(records, order[i]), {})))))
    {
      hide Run, OwnActs, AfterIndex, Wanted;
    }

    /** Rebuilds the index of one repository from the records. */
    method IndexRepository(i: nat) returns (ok: bool)
      requires Valid() && pc == Some(Index(i, Reading)) && i < |order|
      modifies this`clones, this`trees, this`shards, this`graphs, this`pc, this`labels, this`calls
      ensures Valid() && trees == old(trees) && graphs == old(graphs)
      ensures ok ==> pc == Some(AfterIndex(op, order, i + 1))
      ensures !ok ==> pc == if op.Remove? then None else Some(Write(Failed))
      ensures OthersSame(old(clones), clones, order[i]) && OthersSame(old(shards), shards, order[i])
      ensures ok ==> RebuiltAt(records, old(clones), clones, old(shards), shards, order[i])
      ensures Decided(old(calls), old(InOrder()), ok)
    {
      hide Run, AfterIndex, Wanted, ActArtifact, OwnActs, OthersSame, RebuiltAt, RefsFollow, Branches, Inv, InOrder, DoIndex;
      var r := order[i];
      Unchanged(clones, r);
      Unchanged(shards, r);
      var out := Answer();
      if out.Broken? {
        StopIndexing(i, Reading);
        return false;
      }
      if r !in clones {
        RebuiltWithoutClone(records, clones, shards, r);
      }
      var there := ReadRecords(i);
      ok := true;
      if there {
        ok := RebuildIndex(i);
      }
    }

    /** Reads the records of a repository that has a clone; of one that has none the shard goes. */
    method ReadRecords(i: nat) returns (there: bool)
      requires Valid() && pc == Some(Index(i, Reading)) && i < |order|
      modifies this`clones, this`trees, this`shards, this`graphs, this`pc, this`labels
      ensures Valid() && trees == old(trees) && graphs == old(graphs) && clones == old(clones)
      ensures there <==> order[i] in clones
      ensures there ==> pc == Some(Index(i, Putting(Wanted(records, order[i]), {}))) && shards == old(shards)
      ensures !there ==> pc == Some(AfterIndex(op, order, i + 1)) && shards == old(shards) - {order[i]}
      ensures old(InOrder()) ==> InOrder()
    {
      hide Run, AfterIndex, Wanted, ActArtifact, OwnActs, Inv, InOrder, DoIndex;
      ReadsIndex(i);
      there := order[i] in clones;
      if there {
        IndexStep(i, Reading, clones, shards, Index(i, Putting(Wanted(records, order[i]), {})), Done);
      } else {
        IndexStep(i, Reading, clones, shards - {order[i]}, AfterIndex(op, order, i + 1), Done);
      }
    }

    /** Writes the refs the records want and the shard over them. */
    method RebuildIndex(i: nat) returns (ok: bool)
      requires Valid() && i < |order| && pc == Some(Index(i, Putting(Wanted(records, order[i]), {}))) && order[i] in clones
      modifies this`clones, this`trees, this`shards, this`graphs, this`pc, this`labels, this`calls
      ensures Valid() && trees == old(trees) && graphs == old(graphs)
      ensures ok ==> pc == Some(AfterIndex(op, order, i + 1))
      ensures !ok ==> pc == if op.Remove? then None else Some(Write(Failed))
      ensures OthersSame(old(clones), clones, order[i]) && OthersSame(old(shards), shards, order[i])
      ensures ok ==> RebuiltAt(records, old(clones), clones, old(shards), shards, order[i])
      ensures Decided(old(calls), old(InOrder()), ok)
    {
      hide Run, AfterIndex, Wanted, ActArtifact, OwnActs, OthersSame, RebuiltAt, RefsFollow, Branches, Inv, InOrder;
      var r := order[i];
      ghost var wanted := Wanted(records, r);
      Unchanged(shards, r);
      var refs;
      ok, refs := PutSearchRefs(i);
      if !ok {
        return;
      }
      SomeBranch(wanted);
      if refs == {} {
        RebuiltEmpty(records, old(clones), clones, shards, r);
      } else {
        AllThere(old(clones), clones, r, wanted);
        RebuiltWhole(records, old(clones), clones, shards, r);
        ChangedTo(shards, r, map b | b in refs :: clones[r].refs[b]);
      }
      ok := WriteShard(i, refs);
    }

    lemma WritesShard(i: nat, refs: set<string>)
      requires Valid() && pc == Some(Index(i, Putting({}, refs))) && i < |order|
      requires refs != {} ==> order[i] in clones && clones[order[i]].Whole? && refs <= clones[order[i]].refs.Keys
      ensures DoIndex(Now(), p, Me(Index(i, Putting({}, refs))), i, Putting({}, refs), Done) ==
                Some(Goto(Now().(shards := if refs == {} then shards - {order[i]} else shards[order[i] := map b | b in refs :: clones[order[i]].refs[b]]),
                  p, Me(AfterIndex(op, order, i + 1))))
    {
      hide Run, OwnActs, AfterIndex, Wanted;
    }

    /** Writes the shard over the refs there are, or deletes it when nothing is wanted. */
    method WriteShard(i: nat, refs: set<string>) returns (ok: bool)
      requires Valid() && i < |order| && pc == Some(Index(i, Putting({}, refs)))
      requires refs != {} ==> order[i] in clones && clones[order[i]].Whole? && refs <= clones[order[i]].refs.Keys
      modifies this`clones, this`trees, this`shards, this`graphs, this`pc, this`labels, this`calls
      ensures Valid() && trees == old(trees) && graphs == old(graphs) && clones == old(clones)
      ensures calls == if refs == {} then old(calls) else old(calls) + 1
      ensures ok <==> refs == {} || !answers(old(calls)).Broken?
      ensures ok && refs == {} ==> shards == old(shards) - {order[i]}
      ensures ok && refs != {} ==> shards == old(shards)[order[i] := map b | b in refs :: clones[order[i]].refs[b]]
      ensures ok ==> pc == Some(AfterIndex(op, order, i + 1))
      ensures !ok ==> shards == old(shards) && pc == if op.Remove? then None else Some(Write(Failed))
      ensures Decided(old(calls), old(InOrder()), ok)
    {
      hide Run, AfterIndex, Wanted, ActArtifact, OwnActs, Inv, InOrder, DoIndex;
      var r := order[i];
      WritesShard(i, refs);
      if refs == {} {
        IndexStep(i, Putting({}, {}), clones, shards - {r}, AfterIndex(op, order, i + 1), Done);
        return true;
      }
      var out := Answer();
      if out.Broken? {
        StopIndexing(i, Putting({}, refs));
        return false;
      }
      IndexStep(i, Putting({}, refs), clones, shards[r := map b | b in refs :: clones[r].refs[b]], AfterIndex(op, order, i + 1), Done);
      return true;
    }

    /** Writes every ref the records want, in whatever order. */
    method PutSearchRefs(i: nat) returns (ok: bool, refs: set<string>)
      requires Valid() && i < |order| && pc == Some(Index(i, Putting(Wanted(records, order[i]), {}))) && order[i] in clones
      modifies this`clones, this`trees, this`shards, this`graphs, this`pc, this`labels, this`calls
      ensures Valid() && trees == old(trees) && graphs == old(graphs) && shards == old(shards)
      ensures OthersSame(old(clones), clones, order[i])
      ensures ok ==> pc == Some(Index(i, Putting({}, refs))) && refs == Branches(Wanted(records, order[i]))
      ensures ok ==> RefsFollow(old(clones), clones, order[i], Wanted(records, order[i]))
      ensures !ok ==> pc == if op.Remove? then None else Some(Write(Failed))
      ensures Decided(old(calls), old(InOrder()), ok)
    {
      hide Run, AfterIndex, Wanted, ActArtifact, OwnActs, OthersSame, RefsFollow, Branches, DoIndex, Inv, InOrder;
      var r := order[i];
      ghost var wanted := Wanted(records, r);
      var todo: set<(string, string)> := Wanted(records, r);
      refs := {};
      Unchanged(clones, r);
      FollowsNothing(clones, r);
      assert wanted - todo == {};
      while todo != {}
        invariant Valid() && pc == Some(Index(i, Putting(todo, refs))) && r in clones
        invariant todo <= wanted && refs == Branches(wanted - todo) && RefsFollow(old(clones), clones, r, wanted - todo)
        invariant shards == old(shards) && trees == old(trees) && graphs == old(graphs) && OthersSame(old(clones), clones, r)
        invariant Decided(old(calls), old(InOrder()), true)
        decreases |todo|
      {
        var e :| e in todo;
        ghost var had := clones;
        ok := PutSearchRef(i, e, todo, refs);
        if !ok {
          return;
        }
        FollowsOneMore(old(clones), had, r, e, wanted - todo);
        assert wanted - (todo - {e}) == wanted - todo + {e};
        ChangedTo(had, r, had[r].(refs := had[r].refs[e.0 := e.1]));
        SameOn(old(clones), had, clones, r);
        todo := todo - {e};
        refs := refs + {e.0};
      }
      assert wanted - todo == wanted;
      ok := true;
    }

    /** Writes one ref; git refuses a commit the clone does not have. */
    method PutSearchRef(i: nat, e: (string, string), ghost todo: set<(string, string)>, ghost refs: set<string>) returns (ok: bool)
      requires Valid() && i < |order| && pc == Some(Index(i, Putting(todo, refs))) && order[i] in clones && e in todo
      modifies this`clones, this`trees, this`shards, this`graphs, this`pc, this`labels, this`calls
      ensures Valid() && trees == old(trees) && graphs == old(graphs) && shards == old(shards)
      ensures ok ==> old(clones)[order[i]].Whole? && clones == WithRef(old(clones), order[i], e)
      ensures ok ==> pc == Some(Index(i, Putting(todo - {e}, refs + {e.0})))
      ensures !ok ==> clones == old(clones) && pc == if op.Remove? then None else Some(Write(Failed))
      ensures calls == old(calls) + 1
      ensures ok <==> !answers(old(calls)).Broken? && old(clones)[order[i]].Whole? && e.1 in old(clones)[order[i]].commits
      ensures Decided(old(calls), old(InOrder()), ok)
    {
      hide Run, ActArtifact, OwnActs, DoIndex, Inv, InOrder, Decided;
      ghost var inOrder := InOrder();
      ReadyToIndex(i, Putting(todo, refs));
      var out := Answer();
      var clone := clones[order[i]];
      if out.Broken? || clone.Damaged? || e.1 !in clone.commits {
        StopIndexing(i, Putting(todo, refs));
        OneCallDecides(old(calls), inOrder, false);
        return false;
      }
      PutActs(Now(), p, Me(pc.value), i, todo, refs, e);
      IndexStep(i, Putting(todo, refs), WithRef(clones, order[i], e), shards, Index(i, Putting(todo - {e}, refs + {e.0})), Picked(e));
      OneCallDecides(old(calls), inOrder, true);
      return true;
    }

    /** One step of a rebuild: what it makes of the clones and the shards, and where it goes on. */
    method IndexStep(i: nat, ghost sub: Indexing, newClones: map<string, Clone>, newShards: map<string, map<string, string>>,
                     ghost next: Pc, ghost said: Outcome)
      requires Valid() && pc == Some(Index(i, sub)) && i < |order|
      requires DoIndex(Now(), p, Me(pc.value), i, sub, said) ==
               Some(Goto(Now().(clones := newClones, shards := newShards), p, Me(next)))
      modifies this`clones, this`trees, this`shards, this`graphs, this`pc, this`labels
      ensures Valid() && trees == old(trees) && graphs == old(graphs)
      ensures clones == newClones && shards == newShards && pc == Some(next)
      ensures old(InOrder()) ==> InOrder()
    {
      hide Run, OwnActs, DoIndex, Inv, InOrder;
      Take(newClones, trees, newShards, graphs, Some(next), said);
    }

    method StopIndexing(i: nat, ghost sub: Indexing)
      requires Valid() && pc == Some(Index(i, sub)) && i < |order|
      modifies this`clones, this`trees, this`shards, this`graphs, this`pc, this`labels
      ensures Valid() && clones == old(clones) && trees == old(trees) && shards == old(shards) && graphs == old(graphs)
      ensures pc == if op.Remove? then None else Some(Write(Failed))
      ensures old(InOrder()) ==> InOrder()
    {
      hide Run, OwnActs, Inv, InOrder;
      Take(clones, trees, shards, graphs, if op.Remove? then None else Some(Write(Failed)), Broken(None));
    }

    // -------------------------------------------------------------- discarding

    /** Deletes one member's graph and then its worktree. */
    method DiscardSource(i: nat) returns (ok: bool)
      requires Valid() && pc == Some(DropGraph(i)) && i < |c.members|
      modifies this`clones, this`trees, this`shards, this`graphs, this`pc, this`labels, this`calls
      ensures Valid() && clones == old(clones) && shards == old(shards)
      ensures ok ==> graphs == old(graphs) - {c.members[i].graphRef} && trees == old(trees) - {(c.members[i].repository, id)}
      ensures ok ==> pc == Some(if op.Remove? && c.members[i].branch != "" then DropRef(i) else AfterDrop(op, c, order, i + 1))
      ensures !ok ==> pc == None
      ensures OthersSame(old(graphs), graphs, c.members[i].graphRef)
      ensures OthersSame(old(trees), trees, (c.members[i].repository, id))
      ensures Decided(old(calls), old(InOrder()), ok)
    {
      hide Run, OwnActs, AfterDrop, OthersSame, Inv, InOrder;
      Unchanged(graphs, c.members[i].graphRef);
      Unchanged(trees, (c.members[i].repository, id));
      ok := DeleteGraph(i);
      if ok {
        ok := DeleteTree(i);
      }
    }

    method DeleteGraph(i: nat) returns (ok: bool)
      requires Valid() && pc == Some(DropGraph(i)) && i < |c.members|
      modifies this`clones, this`trees, this`shards, this`graphs, this`pc, this`labels, this`calls
      ensures Valid() && clones == old(clones) && trees == old(trees) && shards == old(shards)
      ensures ok ==> graphs == old(graphs) - {c.members[i].graphRef} && pc == Some(DropTree(i))
      ensures !ok ==> pc == None && OthersSame(old(graphs), graphs, c.members[i].graphRef)
      ensures calls == if op.Retry? && c.members[i].repository !in repositories then old(calls) else old(calls) + 1
      ensures ok <==> !(op.Retry? && c.members[i].repository !in repositories) && !answers(old(calls)).Broken?
      ensures Decided(old(calls), old(InOrder()), ok)
    {
      hide Run, OwnActs, ActArtifact, Leave, OthersSame, Inv, InOrder;
      ReadyToDrop(i);
      var m := c.members[i];
      Unchanged(graphs, m.graphRef);
      if op.Retry? && m.repository !in repositories {
        DropGraphActs(Now(), p, Me(pc.value), i, Done, graphs, None);
        TakeGraphs(graphs, None, Done);
        return false;
      }
      var out := Answer();
      ok := !out.Broken?;
      if ok {
        DropGraphActs(Now(), p, Me(pc.value), i, Done, graphs - {m.graphRef}, Some(DropTree(i)));
        TakeGraphs(graphs - {m.graphRef}, Some(DropTree(i)), Done);
      } else {
        // a graph that was not there is not made by failing to delete it
        var left := if m.graphRef in graphs then out.left else None;
        LeftOnly(graphs, m.graphRef, left);
        DropGraphActs(Now(), p, Me(pc.value), i, Broken(left), Leave(graphs, m.graphRef, left), None);
        TakeGraphs(Leave(graphs, m.graphRef, left), None, Broken(left));
      }
    }

    method DeleteTree(i: nat) returns (ok: bool)
      requires Valid() && pc == Some(DropTree(i)) && i < |c.members|
      modifies this`clones, this`trees, this`shards, this`graphs, this`pc, this`labels, this`calls
      ensures Valid() && clones == old(clones) && graphs == old(graphs) && shards == old(shards)
      ensures ok ==> trees == old(trees) - {(c.members[i].repository, id)}
      ensures ok ==> pc == Some(if op.Remove? && c.members[i].branch != "" then DropRef(i) else AfterDrop(op, c, order, i + 1))
      ensures !ok ==> pc == None && OthersSame(old(trees), trees, (c.members[i].repository, id))
      ensures calls == old(calls) + 1 && (ok <==> !answers(old(calls)).Broken?)
      ensures Decided(old(calls), old(InOrder()), ok)
    {
      hide Run, OwnActs, AfterDrop, ActArtifact, Leave, OthersSame, Inv, InOrder, Decided;
      ghost var inOrder := InOrder();
      var m := c.members[i];
      var key := (m.repository, id);
      var out := Answer();
      ok := !out.Broken?;
      if ok {
        ghost var next := if op.Remove? && m.branch != "" then DropRef(i) else AfterDrop(op, c, order, i + 1);
        DropTreeDone(Now(), p, Me(pc.value), i, next);
        TakeTrees(trees - {key}, Some(next), Done);
      } else {
        var left := if key in trees then out.left else None;
        LeftOnly(trees, key, left);
        DropTreeFails(Now(), p, Me(pc.value), i, left);
        TakeTrees(Leave(trees, key, left), None, Broken(left));
      }
      OneCallDecides(old(calls), inOrder, ok);
    }

    /** Deletes one member's search ref; one that is not there, or has no clone, is no failure. */
    method DropSearchRef(i: nat) returns (ok: bool)
      requires Valid() && pc == Some(DropRef(i)) && i < |c.members|
      modifies this`clones, this`trees, this`shards, this`graphs, this`pc, this`labels, this`calls
      ensures Valid() && trees == old(trees) && graphs == old(graphs) && shards == old(shards)
      ensures ok ==> pc == Some(AfterDrop(op, c, order, i + 1))
      ensures ok && c.members[i].branch != "" ==> clones == WithoutRef(old(clones), c.members[i])
      ensures ok && c.members[i].repository in clones ==>
                var clone := clones[c.members[i].repository];
                clone.Whole? && c.members[i].branch !in clone.refs
      ensures !ok ==> pc == None && clones == old(clones)
      ensures OthersSame(old(clones), clones, c.members[i].repository)
      ensures calls == old(calls) + 1
      ensures ok <==> !answers(old(calls)).Broken? && !(c.members[i].repository in old(clones) && old(clones)[c.members[i].repository].Damaged?)
      ensures Decided(old(calls), old(InOrder()), ok)
    {
      hide Run, OwnActs, AfterDrop, ActArtifact, OthersSame, Inv, InOrder, Decided;
      ghost var inOrder := InOrder();
      ReadyToDrop(i);
      var m := c.members[i];
      Unchanged(clones, m.repository);
      var out := Answer();
      if out.Broken? || (m.repository in clones && clones[m.repository].Damaged?) {
        DropRefActs(Now(), p, Me(pc.value), i, Broken(None), clones, None);
        TakeClones(clones, None, Broken(None));
        OneCallDecides(old(calls), inOrder, false);
        return false;
      }
      var dropped := clones;
      if m.repository in clones {
        ChangedTo(clones, m.repository, Whole(clones[m.repository].commits, clones[m.repository].refs - {m.branch}));
        dropped := clones[m.repository := Whole(clones[m.repository].commits, clones[m.repository].refs - {m.branch})];
      }
      DropRefActs(Now(), p, Me(pc.value), i, Done, dropped, Some(AfterDrop(op, c, order, i + 1)));
      TakeClones(dropped, Some(AfterDrop(op, c, order, i + 1)), Done);
      OneCallDecides(old(calls), inOrder, true);
      return true;
    }

    // -------------------------------------------------------------- whole commands

    /** A check that refuses ends the command with nothing done. */
    method Refuse(ghost said: Outcome)
      requires Valid() && pc == Some(Check)
      requires DoCheck(Now(), p, Me(Check), said) == Some(Exit(Now(), p))
      modifies this`pc, this`labels
      ensures Valid() && pc == None
      ensures old(InOrder()) ==> InOrder()
    {
      hide Run, Apply, OwnActs, DoCheck, Inv;
      ghost var before, q := Now(), Me(Check);
      pc := None;
      Alone(others, p, q, q);
      CheckActs(before, p, q, said);
      OneStepMore(start, labels, p, before, said, Now());
      OrderKept(home, before, p, said, Now());
      labels := labels + [Act(p, said)];
    }

    /** The record the command goes to work on, read or made under the locks. */
    method GoToWork(rec: Record, ghost next: Pc, ghost said: Outcome)
      requires Valid() && pc == Some(Check)
      requires DoCheck(Now(), p, Me(Check), said) == Some(Goto(Now(), p, Reads(Me(Check), rec, next)))
      modifies this`c, this`order, this`pc, this`labels
      ensures Valid() && pc == Some(next) && c == rec && order == LockNames(RepositoriesOf(rec.members))
      ensures old(InOrder()) ==> InOrder()
    {
      hide Run, Apply, OwnActs, DoCheck, LockNames, RepositoriesOf, Inv;
      ghost var before, q := Now(), Me(Check);
      c, order := rec, LockNames(RepositoriesOf(rec.members));
      pc := Some(next);
      Alone(others, p, q, if pc.Some? then Me(pc.value) else q);
      CheckActs(before, p, q, said);
      OneStepMore(start, labels, p, before, said, Now());
      OrderKept(home, before, p, said, Now());
      labels := labels + [Act(p, said)];
    }

    /** Checks every member out. */
    method PrepareSources() returns (ok: bool)
      requires Valid() && pc == Some(AfterPrepare(c, 0)) && !op.Remove?
      modifies this`clones, this`trees, this`shards, this`graphs, this`pc, this`labels, this`calls
      ensures Valid() && pc == Some(Write(if ok then IndexingSearch else Failed))
      ensures ok ==> forall i :: 0 <= i < |c.members| ==> (c.members[i].repository, id) in trees
      ensures Decided(old(calls), old(InOrder()), ok)
    {
      hide Run, OwnActs, OthersSame, Inv, InOrder;
      for i := 0 to |c.members|
        invariant Valid() && pc == Some(AfterPrepare(c, i))
        invariant forall j :: 0 <= j < i ==> (c.members[j].repository, id) in trees
        invariant Decided(old(calls), old(InOrder()), true)
      {
        ok := PrepareSource(i);
        if !ok {
          return;
        }
      }
      ok := true;
    }

    /** Rebuilds the index of every repository, one rebuild for each. */
    method IndexRepositories() returns (ok: bool)
      requires Valid() && pc == Some(AfterIndex(op, order, 0))
      modifies this`clones, this`trees, this`shards, this`graphs, this`pc, this`labels, this`calls
      ensures Valid() && trees == old(trees) && graphs == old(graphs)
      ensures ok ==> pc == Some(if op.Remove? then Delete else Write(IndexingGraph))
      ensures !ok ==> pc == if op.Remove? then None else Some(Write(Failed))
      ensures ok && Increasing(order) ==> AllRebuilt(records, old(clones), clones, old(shards), shards, order)
      ensures Decided(old(calls), old(InOrder()), ok)
    {
      hide Inv, Run, OwnActs, OthersSame, AllRebuilt, RebuiltAt, Increasing, InOrder;
      NothingRebuilt(records, clones, shards);
      assert order[..0] == [];
      for i := 0 to |order|
        invariant Valid() && pc == Some(AfterIndex(op, order, i))
        invariant trees == old(trees) && graphs == old(graphs)
        invariant Increasing(order) ==> AllRebuilt(records, old(clones), clones, old(shards), shards, order[..i])
        invariant Decided(old(calls), old(InOrder()), true)
      {
        ghost var hadClones, hadShards := clones, shards;
        ok := IndexRepository(i);
        if !ok {
          return;
        }
        if Increasing(order) {
          OthersSameBoth(hadClones, clones, hadShards, shards, order[i]);
          OneMoreRebuilt(records, old(clones), hadClones, clones, old(shards), hadShards, shards, order, i);
        }
      }
      assert order[..|order|] == order;
      ok := true;
    }

    method IndexGraphs() returns (ok: bool)
      requires Valid() && pc == Some(AfterGraph(c, 0)) && !op.Remove?
      modifies this`clones, this`trees, this`shards, this`graphs, this`pc, this`labels, this`calls
      ensures Valid() && pc == Some(Write(if ok then Verifying else Failed))
      ensures clones == old(clones) && trees == old(trees) && shards == old(shards)
      ensures Decided(old(calls), old(InOrder()), ok)
    {
      hide Inv, Run, OwnActs, OthersSame, InOrder;
      for i := 0 to |c.members|
        invariant Valid() && pc == Some(AfterGraph(c, i))
        invariant Decided(old(calls), old(InOrder()), true)
        invariant clones == old(clones) && trees == old(trees) && shards == old(shards)
      {
        ok := IndexGraph(i);
        if !ok {
          return;
        }
      }
      ok := true;
    }

    /** Whether every artifact of every member is what the record says, and the names are its own. */
    method VerifyContext() returns (ok: bool)
      requires Valid() && pc == Some(AfterVerify(c, 0)) && !op.Remove?
      modifies this`clones, this`trees, this`shards, this`graphs, this`pc, this`labels, this`calls
      ensures Valid() && pc == Some(Write(if ok then Ready else Failed))
      ensures clones == old(clones) && trees == old(trees) && shards == old(shards) && graphs == old(graphs)
      ensures ok ==> AllVerified(old(Now()), id, c.members)
      ensures ok && c.members != [] ==> VerifyIdentity(id, c.members)
      ensures Decided(old(calls), old(InOrder()), ok)
    {
      hide Run, OwnActs, Verified, VerifyIdentity, Inv, InOrder;
      for i := 0 to |c.members|
        invariant Valid() && pc == Some(AfterVerify(c, i))
        invariant clones == old(clones) && trees == old(trees) && shards == old(shards) && graphs == old(graphs)
        invariant forall j :: 0 <= j < i ==> Verified(old(Now()), id, c.members[j])
        invariant i > 0 && i == |c.members| ==> VerifyIdentity(id, c.members)
        invariant Decided(old(calls), old(InOrder()), true)
      {
        ghost var now := Now();
        ok := VerifyMember(i);
        if !ok {
          return;
        }
        VerifiedThen(old(Now()), now, id, c.members[i]);
      }
      ok := true;
    }

    /** Builds a context stage by stage: a stage is over for every member before the next begins, and
        one member that fails any of them fails the context. */
    method BuildContext() returns (ok: bool)
      requires Valid() && pc == Some(Write(PreparingSource)) && c.state == Resolving && !op.Remove?
      modifies this`records, this`c, this`clones, this`trees, this`shards, this`graphs, this`pc, this`labels, this`calls
      ensures Valid() && pc == None
      ensures c == Record(old(c.members), if ok then Ready else Failed) && records == old(records)[id := c]
      ensures ok ==> AllVerified(Now(), id, c.members)
      ensures ok && c.members != [] ==> VerifyIdentity(id, c.members)
      ensures Decided(old(calls), old(InOrder()), ok)
    {
      hide Run, OwnActs, AllVerified, VerifyIdentity, Inv, InOrder;
      ghost var had := records;
      ok := SourceStage(had);
      if !ok {
        return;
      }
      ok := SearchStage(had);
      if ok {
        ok := LaterStages(had);
      }
    }

    /** The graphs, the verification, and READY. */
    method LaterStages(ghost had: map<string, Record>) returns (ok: bool)
      requires Valid() && pc == Some(Write(IndexingGraph)) && c.state == IndexingSearch && !op.Remove? && records == had[id := c]
      modifies this`records, this`c, this`clones, this`trees, this`shards, this`graphs, this`pc, this`labels, this`calls
      ensures Valid() && pc == None && c == Record(old(c.members), if ok then Ready else Failed) && records == had[id := c]
      ensures ok ==> AllVerified(Now(), id, c.members)
      ensures ok && c.members != [] ==> VerifyIdentity(id, c.members)
      ensures Decided(old(calls), old(InOrder()), ok)
    {
      hide Run, OwnActs, AllVerified, VerifyIdentity, Inv, InOrder;
      ok := GraphStage(had);
      if !ok {
        return;
      }
      ok := VerifyStage(had);
      if !ok {
        return;
      }
      Finish(had);
    }

    method Finish(ghost had: map<string, Record>)
      requires Valid() && pc == Some(Write(Ready)) && c.state == Verifying && !op.Remove? && records == had[id := c]
      requires AllVerified(Now(), id, c.members)
      modifies this`records, this`c, this`pc, this`labels
      ensures Valid() && c == Record(old(c.members), Ready) && records == had[id := c] && pc == None
      ensures AllVerified(Now(), id, c.members)
      ensures old(InOrder()) ==> InOrder()
    {
      hide Inv, Run, OwnActs, Advances, AfterWrite, Restarts, AllVerified, InOrder;
      StagesFollow(op);
      StagesGoOn(op, order);
      ghost var now := Now();
      NextStage(Ready, had);
      AllVerifiedThen(Now(), now, id, c.members);
    }

    method SourceStage(ghost had: map<string, Record>) returns (ok: bool)
      requires Valid() && pc == Some(Write(PreparingSource)) && c.state == Resolving && !op.Remove? && records == had
      modifies this`records, this`c, this`clones, this`trees, this`shards, this`graphs, this`pc, this`labels, this`calls
      ensures Valid() && c == Record(old(c.members), if ok then PreparingSource else Failed) && records == had[id := c]
      ensures pc == if ok then Some(Write(IndexingSearch)) else None
      ensures Decided(old(calls), old(InOrder()), ok)
    {
      hide Inv, Run, OwnActs, Advances, AfterWrite, Restarts, InOrder;
      StagesFollow(op);
      StagesGoOn(op, order);
      ok := Advance(PreparingSource);
      ok := PrepareSources();
      if !ok {
        Fail(had);
      }
    }

    method SearchStage(ghost had: map<string, Record>) returns (ok: bool)
      requires Valid() && pc == Some(Write(IndexingSearch)) && c.state == PreparingSource && !op.Remove? && records == had[id := c]
      modifies this`records, this`c, this`clones, this`trees, this`shards, this`graphs, this`pc, this`labels, this`calls
      ensures Valid() && c == Record(old(c.members), if ok then IndexingSearch else Failed) && records == had[id := c]
      ensures pc == if ok then Some(Write(IndexingGraph)) else None
      ensures Decided(old(calls), old(InOrder()), ok)
    {
      hide Inv, Run, OwnActs, Advances, AfterWrite, Restarts, InOrder;
      StagesFollow(op);
      StagesGoOn(op, order);
      NextStage(IndexingSearch, had);
      ok := IndexRepositories();
      if !ok {
        Fail(had);
      }
    }

    method GraphStage(ghost had: map<string, Record>) returns (ok: bool)
      requires Valid() && pc == Some(Write(IndexingGraph)) && c.state == IndexingSearch && !op.Remove? && records == had[id := c]
      modifies this`records, this`c, this`clones, this`trees, this`shards, this`graphs, this`pc, this`labels, this`calls
      ensures Valid() && c == Record(old(c.members), if ok then IndexingGraph else Failed) && records == had[id := c]
      ensures pc == if ok then Some(Write(Verifying)) else None
      ensures Decided(old(calls), old(InOrder()), ok)
    {
      hide Inv, Run, OwnActs, Advances, AfterWrite, Restarts, InOrder;
      StagesFollow(op);
      StagesGoOn(op, order);
      NextStage(IndexingGraph, had);
      ok := IndexGraphs();
      if !ok {
        Fail(had);
      }
    }

    method VerifyStage(ghost had: map<string, Record>) returns (ok: bool)
      requires Valid() && pc == Some(Write(Verifying)) && c.state == IndexingGraph && !op.Remove? && records == had[id := c]
      modifies this`records, this`c, this`clones, this`trees, this`shards, this`graphs, this`pc, this`labels, this`calls
      ensures Valid() && c == Record(old(c.members), if ok then Verifying else Failed) && records == had[id := c]
      ensures pc == if ok then Some(Write(Ready)) else None
      ensures ok ==> AllVerified(Now(), id, c.members)
      ensures ok && c.members != [] ==> VerifyIdentity(id, c.members)
      ensures Decided(old(calls), old(InOrder()), ok)
    {
      hide Inv, Run, OwnActs, Advances, AfterWrite, Restarts, AllVerified, VerifyIdentity, InOrder;
      StagesFollow(op);
      StagesGoOn(op, order);
      NextStage(Verifying, had);
      ghost var now := Now();
      ok := VerifyContext();
      if ok {
        AllVerifiedThen(Now(), now, id, c.members);
      } else {
        Fail(had);
      }
    }

    /** Advancing along the path the stages are on. */
    method NextStage(next: Stage, ghost had: map<string, Record>)
      requires Valid() && pc == Some(Write(next)) && Advances(c.state, next) && !Restarts(op, next) && records == had[id := c]
      modifies this`records, this`c, this`pc, this`labels
      ensures Valid() && c == old(c).(state := next) && records == had[id := c] && pc == AfterWrite(op, c, order, next)
      ensures old(InOrder()) && next != Creating ==> InOrder()
    {
      hide Inv, Run, OwnActs, AfterWrite, Advances, Restarts, InOrder;
      var ok := Advance(next);
      Rewritten(had, id, old(c), c);
    }

    /** Records that the context stopped in the stage it is in. */
    method Fail(ghost had: map<string, Record>)
      requires Valid() && pc == Some(Write(Failed)) && Advances(c.state, Failed) && records == had[id := c]
      modifies this`records, this`c, this`pc, this`labels
      ensures Valid() && pc == None && c == old(c).(state := Failed) && records == had[id := c]
      ensures old(InOrder()) ==> InOrder()
    {
      hide Inv, Run, OwnActs, Advances, InOrder;
      NextStage(Failed, had);
    }

    /** One member's graph and worktree, and in a removal its search ref. */
    method DiscardMember(i: nat) returns (ok: bool)
      requires Valid() && pc == Some(DropGraph(i)) && i < |c.members|
      modifies this`clones, this`trees, this`shards, this`graphs, this`pc, this`labels, this`calls
      ensures Valid() && shards == old(shards)
      ensures ok ==> graphs == old(graphs) - {c.members[i].graphRef} && trees == old(trees) - {(c.members[i].repository, id)}
      ensures ok ==> clones == if op.Remove? && c.members[i].branch != "" then WithoutRef(old(clones), c.members[i]) else old(clones)
      ensures ok ==> pc == Some(AfterDrop(op, c, order, i + 1))
      ensures !ok ==> pc == None
      ensures Decided(old(calls), old(InOrder()), ok)
    {
      hide Run, OwnActs, AfterDrop, OthersSame, WithoutRef, Inv, InOrder;
      ok := DiscardSource(i);
      if ok && op.Remove? && c.members[i].branch != "" {
        ok := DropSearchRef(i);
      }
    }

    /** Throws every member's graph and worktree away, and in a removal its search ref. */
    method DiscardMembers() returns (ok: bool)
      requires Valid() && pc == Some(AfterDrop(op, c, order, 0)) && (op.Remove? || op.Retry?)
      modifies this`clones, this`trees, this`shards, this`graphs, this`pc, this`labels, this`calls
      ensures Valid() && shards == old(shards)
      ensures ok ==> pc == Some(if op.Remove? then AfterIndex(op, order, 0) else Write(Resolving))
      ensures ok ==> graphs == old(graphs) - GraphsOf(c.members) && trees == old(trees) - TreesOf(id, c.members)
      ensures ok ==> clones == if op.Remove? then WithoutRefs(old(clones), c.members) else old(clones)
      ensures !ok ==> pc == None
      ensures Decided(old(calls), old(InOrder()), ok)
    {
      hide Inv, Run, OwnActs, OthersSame, AfterIndex, GraphsOf, TreesOf, WithoutRefs, InOrder;
      NoMember(id, clones, c.members);
      for i := 0 to |c.members|
        invariant Valid() && pc == Some(AfterDrop(op, c, order, i)) && shards == old(shards)
        invariant graphs == old(graphs) - GraphsOf(c.members[..i]) && trees == old(trees) - TreesOf(id, c.members[..i])
        invariant clones == if op.Remove? then WithoutRefs(old(clones), c.members[..i]) else old(clones)
        invariant Decided(old(calls), old(InOrder()), true)
      {
        OneMemberMore(id, old(clones), c.members, i);
        ok := DiscardMember(i);
        if !ok {
          return;
        }
      }
      assert c.members[..|c.members|] == c.members;
      ok := true;
    }

    /** Creates a context: resolves every pin, files the record, and builds it. */
    method Create(pins: seq<string>) returns (ok: bool)
      requires Valid() && pc == Some(Check) && op == Operation.Create(pins)
      modifies this`records, this`c, this`order, this`clones, this`trees, this`shards, this`graphs, this`pc, this`labels, this`calls
      ensures Valid() && pc == None
      ensures id in old(records) || (exists i :: 0 <= i < |pins| && pins[i] !in repositories) ==> !ok && records == old(records)
      ensures records == old(records) ==> clones == old(clones) && trees == old(trees) && shards == old(shards) && graphs == old(graphs)
      ensures ok ==> RepositoriesOf(c.members) == pins && VerifyIdentity(id, c.members)
      ensures records != old(records) ==> answers(old(calls)).Resolved? && RevisionsOf(c.members) == answers(old(calls)).revisions
      ensures ok ==> records == old(records)[id := c] && c.state == Ready
      ensures ok ==> AllVerified(Now(), id, c.members)
      ensures !ok ==> records == old(records) || (c.state == Failed && RepositoriesOf(c.members) == pins && records == old(records)[id := c])
      ensures old(calls) <= calls && (ok ==> forall k :: old(calls) <= k < calls ==> !answers(k).Broken?)
      ensures old(InOrder()) && id !in old(records) && (forall r :: r in pins ==> r in repositories) ==>
              ResolvedTo(old(clones), pins, answers(old(calls))) ==>
              ApartFrom(old(records), PinnedMembers(id, pins, answers(old(calls)).revisions)) ==>
              (forall k :: old(calls) <= k < calls ==> !answers(k).Broken?) ==> ok
    {
      hide RevisionsOf, Inv, ApartFrom, Run, OwnActs, AfterWrite, LockNames, RepositoriesOf, PinnedMembers, VerifyIdentity, AllVerified, InOrder;
      if id in records || exists i :: 0 <= i < |pins| && pins[i] !in repositories {
        Refuse(Done);
        return false;
      }
      var out := Answer();
      if !out.Resolved? || |out.revisions| != |pins| ||
         !(forall i :: 0 <= i < |pins| ==>
             && pins[i] in clones && clones[pins[i]].Whole?
             && out.revisions[i] in clones[pins[i]].commits && |out.revisions[i]| == FULL_SHA)
      {
        Refuse(Broken(None));
        return false;
      }
      PinsAreNamed(id, pins, out.revisions);
      ok := BuildNew(pins, out.revisions);
    }

    /** Files the record and builds what it says. */
    method BuildNew(pins: seq<string>, revisions: seq<string>) returns (ok: bool)
      requires Valid() && pc == Some(Check) && op == Operation.Create(pins) && |revisions| == |pins| && id !in records
      requires forall i :: 0 <= i < |pins| ==>
                 && pins[i] in repositories && pins[i] in clones && clones[pins[i]].Whole?
                 && revisions[i] in clones[pins[i]].commits && |revisions[i]| == FULL_SHA
      modifies this`records, this`c, this`order, this`clones, this`trees, this`shards, this`graphs, this`pc, this`labels, this`calls
      ensures Valid() && pc == None
      ensures c == Record(PinnedMembers(id, pins, revisions), if ok then Ready else Failed) && records == old(records)[id := c]
      ensures ok ==> AllVerified(Now(), id, c.members)
      ensures old(calls) <= calls && (ok ==> NoneFailed(old(calls), calls))
      ensures old(InOrder()) && ApartFrom(old(records), PinnedMembers(id, pins, revisions)) && NoneFailed(old(calls), calls) ==> ok
    {
      hide Inv, InOrder, ApartFrom, Run, OwnActs, PinnedMembers, VerifyIdentity, AllVerified;
      ghost var had := records;
      FileRecord(pins, revisions);
      ghost var filed := c;
      ok := BuildContext();
      Rewritten(had, id, filed, c);
    }

    /** The record first, the artifacts after: whatever stops from here leaves a context that is managed. */
    method FileRecord(pins: seq<string>, revisions: seq<string>)
      requires Valid() && pc == Some(Check) && op == Operation.Create(pins) && |revisions| == |pins| && id !in records
      requires forall i :: 0 <= i < |pins| ==>
                 && pins[i] in repositories && pins[i] in clones && clones[pins[i]].Whole?
                 && revisions[i] in clones[pins[i]].commits && |revisions[i]| == FULL_SHA
      modifies this`records, this`c, this`order, this`pc, this`labels
      ensures Valid() && pc == Some(Write(PreparingSource)) && records == old(records)[id := c]
      ensures c == Record(PinnedMembers(id, pins, revisions), Resolving)
      ensures old(InOrder()) && ApartFrom(old(records), PinnedMembers(id, pins, revisions)) ==> InOrder()
    {
      hide NamesFresh, ApartFrom, Inv, Run, OwnActs, AfterWrite, LockNames, RepositoriesOf, PinnedMembers, InOrder;
      ghost var had := records;
      GoToWork(Record(PinnedMembers(id, pins, revisions), Creating), Write(Creating), Resolved(revisions));
      FreshWhenApart();
      Put(Creating);
      CreatedGoesOn(op, c, order);
      NextStage(Resolving, had);
      ResolvedGoesOn(op, c, order);
    }

    /** Builds a context again: throws away what every member has left, and starts over. */
    method Retry() returns (ok: bool)
      requires Valid() && pc == Some(Check) && op == Operation.Retry
      modifies this`records, this`c, this`order, this`clones, this`trees, this`shards, this`graphs, this`pc, this`labels, this`calls
      ensures Valid() && pc == None
      ensures id !in old(records) || old(records)[id].state == Ready || old(records)[id].state == Removing ==> !ok && records == old(records)
      ensures ok ==> records == old(records)[id := Record(old(records)[id].members, Ready)]
      ensures ok ==> AllVerified(Now(), id, c.members)
      ensures !ok ==> records == old(records) || (id in old(records) && records == old(records)[id := Record(old(records)[id].members, Failed)])
      ensures old(calls) <= calls && (ok ==> forall k :: old(calls) <= k < calls ==> !answers(k).Broken?)
      ensures old(InOrder()) && id in old(records) && old(records)[id].state != Ready && old(records)[id].state != Removing ==>
              (forall k :: old(calls) <= k < calls ==> !answers(k).Broken?) ==> ok
    {
      hide Inv, Run, OwnActs, AfterWrite, LockNames, RepositoriesOf, AllVerified, InOrder;
      if id !in records || records[id].state == Ready || records[id].state == Removing {
        Refuse(Done);
        return false;
      }
      ghost var rec := records[id];
      GoToWork(records[id], AfterDrop(op, rec, LockNames(RepositoriesOf(rec.members)), 0), Done);
      ok := DiscardMembers();
      if !ok {
        return;
      }
      ok := BuildAgain();
    }

    /** Starts the machine over and builds what the record says. */
    method BuildAgain() returns (ok: bool)
      requires Valid() && pc == Some(Write(Resolving)) && op == Operation.Retry
      modifies this`records, this`c, this`clones, this`trees, this`shards, this`graphs, this`pc, this`labels, this`calls
      ensures Valid() && pc == None
      ensures c == Record(old(c.members), if ok then Ready else Failed) && records == old(records)[id := c]
      ensures ok ==> AllVerified(Now(), id, c.members)
      ensures Decided(old(calls), old(InOrder()), ok)
    {
      hide Inv, Run, OwnActs, AfterWrite, AllVerified, InOrder;
      ghost var had := records;
      Put(Resolving);
      ghost var restarted := c;
      ResolvedGoesOn(op, c, order);
      ok := BuildContext();
      Rewritten(had, id, restarted, c);
    }

    /** Takes a context away: its state first, then every member's artifacts, the indexes, and the
        record last of all. */
    method Remove() returns (ok: bool)
      requires Valid() && pc == Some(Check) && op == Operation.Remove
      modifies this`records, this`c, this`order, this`clones, this`trees, this`shards, this`graphs, this`pc, this`labels, this`calls
      ensures Valid() && pc == None
      ensures id !in old(records) ==> !ok && records == old(records)
      ensures ok ==> RemovalLeaves(old(Now()), Now(), id)
      ensures !ok && id in old(records) ==> records == old(records)[id := Record(old(records)[id].members, Removing)]
      ensures old(calls) <= calls && (ok ==> forall k :: old(calls) <= k < calls ==> !answers(k).Broken?)
      ensures id in old(records) && old(InOrder()) && (forall k :: old(calls) <= k < calls ==> !answers(k).Broken?) ==> ok
    {
      hide Inv, Run, OwnActs, LockNames, RepositoriesOf, AllRebuilt, GraphsOf, TreesOf, WithoutRefs, Increasing, RemovalLeaves, InOrder;
      ghost var first := Now();
      if id !in records {
        Refuse(Done);
        return false;
      }
      BeginRemoval();
      ok := TakeApart();
      if ok {
        DeleteRecord();
        RemovalDone(first, Now(), id, c);
      }
    }

    /** The record says REMOVING before anything is taken away. */
    method BeginRemoval()
      requires Valid() && pc == Some(Check) && op == Operation.Remove && id in records
      modifies this`records, this`c, this`order, this`pc, this`labels
      ensures Valid() && c == Record(old(records)[id].members, Removing) && records == old(records)[id := c]
      ensures pc == Some(AfterDrop(op, c, order, 0)) && order == LockNames(RepositoriesOf(c.members))
      ensures old(InOrder()) ==> InOrder()
    {
      hide Inv, InOrder, Run, OwnActs, LockNames, RepositoriesOf, AfterDrop;
      ghost var had := records;
      GoToWork(records[id], Write(Removing), Done);
      assert records == had[id := c];
      NextStage(Removing, had);
    }

    /** Every member's artifacts, and then one rebuild for each repository. */
    method TakeApart() returns (ok: bool)
      requires Valid() && op == Operation.Remove && pc == Some(AfterDrop(op, c, order, 0)) && order == LockNames(RepositoriesOf(c.members))
      modifies this`clones, this`trees, this`shards, this`graphs, this`pc, this`labels, this`calls
      ensures Valid() && pc == if ok then Some(Delete) else None
      ensures ok ==> graphs == old(graphs) - GraphsOf(c.members) && trees == old(trees) - TreesOf(id, c.members)
      ensures ok ==> AllRebuilt(records, WithoutRefs(old(clones), c.members), clones, old(shards), shards, order)
      ensures Decided(old(calls), old(InOrder()), ok)
    {
      hide Inv, Run, OwnActs, LockNames, RepositoriesOf, AllRebuilt, GraphsOf, TreesOf, WithoutRefs, Increasing, InOrder;
      ok := DiscardMembers();
      if ok {
        ok := IndexRepositories();
      }
    }

    method DeleteRecord()
      requires Valid() && pc == Some(Delete)
      modifies this`records, this`pc, this`labels
      ensures Valid() && pc == None && records == old(records) - {id}
    {
      hide Run, OwnActs;
      ghost var before, q := Now(), Me(pc.value);
      records := records - {id};
      pc := None;
      Alone(others, p, q, q);
      OneStepMore(start, labels, p, before, Done, Now());
      labels := labels + [Act(p, Done)];
    }
  }

  // ---------------------------------------------------------------- what nothing is in the way of

  /** The answer names a commit for every pin, and the clones have them. */
  ghost predicate ResolvedTo(clones: map<string, Clone>, pins: seq<string>, out: Outcome) {
    && out.Resolved? && |out.revisions| == |pins|
    && forall i :: 0 <= i < |pins| ==>
         && pins[i] in clones && clones[pins[i]].Whole?
         && out.revisions[i] in clones[pins[i]].commits && |out.revisions[i]| == FULL_SHA
  }

  /** The names of these members are no other record's. */
  ghost predicate ApartFrom(records: map<string, Record>, members: seq<Member>) {
    forall d, m, n :: d in records && m in members && n in records[d].members ==> Apart(m, n)
  }

  lemma OrderKept(home: Homes, w: World, p: nat, out: Outcome, after: World)
    requires p in w.processes && w.processes[p].ContextRun? && Apply(w, Act(p, out)) == Some(after)
    ensures Inv(home, w) && (w.processes[p].pc == Write(Creating) ==> FreshNames(w, w.processes[p])) ==> Inv(home, after)
  {
    hide Inv, Apply, FreshNames;
    if Inv(home, w) && (w.processes[p].pc == Write(Creating) ==> FreshNames(w, w.processes[p])) {
      StepInv(home, w, Act(p, out));
    }
  }

  lemma CallKeepsOrder(home: Homes, w: World, p: nat, q: Process, out: Outcome, after: World)
    requires p in w.processes && w.processes[p] == q && q.ContextRun? && ActArtifact(w, p, q, out) == Some(after)
    ensures Inv(home, w) ==> Inv(home, after)
  {
    hide Inv, FreshNames, DoPrepare, DoIndex, DoGraph, DoVerify, DoDropGraph, DoDropTree, DoDropRef;
    ArtifactApplies(w, p, q, out);
    OrderKept(home, w, p, out, after);
  }

  lemma MayPrepare(home: Homes, w: World, p: nat, i: nat)
    requires p in w.processes && w.processes[p].ContextRun? && w.processes[p].pc == Prepare(i) && i < |w.processes[p].rec.members|
    ensures var q := w.processes[p];
            var m := q.rec.members[i];
            Inv(home, w) ==> (m.repository, q.id) !in w.trees && HasCommit(w.clones, m)
  {
    hide Inv, ManagedSteps.Works;
    var q := w.processes[p];
    if Inv(home, w) {
      InvWorks(home, w, p);
      PcAtWork(home, w, p, q);
      assert Backed(w.repositories, w.clones, q.rec.members[i]);
    }
  }

  lemma MayGraph(home: Homes, w: World, p: nat, i: nat)
    requires p in w.processes && w.processes[p].ContextRun? && w.processes[p].pc == BuildGraph(i) && i < |w.processes[p].rec.members|
    ensures var q := w.processes[p]; Inv(home, w) ==> (q.rec.members[i].repository, q.id) in w.trees
  {
    hide Inv, ManagedSteps.Works;
    var q := w.processes[p];
    if Inv(home, w) {
      InvWorks(home, w, p);
      PcAtWork(home, w, p, q);
      assert HasTree(w.trees, q.id, q.rec.members[i]);
    }
  }

  lemma MayVerify(home: Homes, w: World, p: nat, i: nat)
    requires p in w.processes && w.processes[p].ContextRun? && w.processes[p].pc == Verify(i) && i < |w.processes[p].rec.members|
    ensures var q := w.processes[p]; Inv(home, w) ==> Verified(w, q.id, q.rec.members[i]) && VerifyIdentity(q.id, q.rec.members)
  {
    hide Inv, ManagedSteps.Works, Verified, VerifyIdentity;
    var q := w.processes[p];
    if Inv(home, w) {
      InvWorks(home, w, p);
      AtWorkOrder(home, w, p, q);
      VerifiesBuilt(home, w, p, q, i);
    }
  }

  lemma MayIndex(home: Homes, w: World, p: nat, i: nat, sub: Indexing)
    requires p in w.processes && w.processes[p].ContextRun? && w.processes[p].pc == Index(i, sub) && i < |w.processes[p].order|
    ensures var r := w.processes[p].order[i];
            Inv(home, w) && sub.Putting? ==> r in w.clones && w.clones[r].Whole? && forall e :: e in sub.todo ==> e.1 in w.clones[r].commits
  {
    hide Inv, ManagedSteps.Works;
    var q := w.processes[p];
    if Inv(home, w) {
      InvWorks(home, w, p);
      IndexAtWork(home, w, p, q, i, sub);
    }
  }

  /** Of a context that is being taken apart: its repositories are managed and their clones whole. */
  lemma MayDrop(home: Homes, w: World, p: nat, i: nat)
    requires p in w.processes && w.processes[p].ContextRun? && i < |w.processes[p].rec.members|
    requires w.processes[p].pc == DropGraph(i) || w.processes[p].pc == DropRef(i)
    ensures var m := w.processes[p].rec.members[i];
            Inv(home, w) ==> m.repository in w.repositories && m.repository in w.clones && w.clones[m.repository].Whole?
  {
    hide Inv, ManagedSteps.Works;
    var q := w.processes[p];
    if Inv(home, w) {
      InvWorks(home, w, p);
      PcAtWork(home, w, p, q);
      assert Backed(w.repositories, w.clones, q.rec.members[i]);
    }
  }

  /** A process moves on, or ends. */
  ghost function Moved(w: World, p: nat, q: Process, pc: Option<Pc>): World
    requires q.ContextRun?
  {
    if pc.Some? then Goto(w, p, q.(pc := pc.value)) else Exit(w, p)
  }

  /** Verification looks at the artifacts and nothing else. */
  lemma VerifiedThen(w: World, w': World, id: string, m: Member)
    requires Verified(w', id, m)
    requires w.clones == w'.clones && w.trees == w'.trees && w.shards == w'.shards && w.graphs == w'.graphs
    ensures Verified(w, id, m)
  {}

  /** The path the stages are on, and that any of them can fail. */
  lemma StagesFollow(op: Operation)
    ensures Advances(Resolving, PreparingSource) && Advances(PreparingSource, IndexingSearch) && Advances(IndexingSearch, IndexingGraph)
    ensures Advances(IndexingGraph, Verifying) && Advances(Verifying, Ready)
    ensures Advances(PreparingSource, Failed) && Advances(IndexingSearch, Failed) && Advances(IndexingGraph, Failed) && Advances(Verifying, Failed)
    ensures forall s :: s != Creating && s != Resolving ==> !Restarts(op, s)
  {}

  lemma StagesGoOn(op: Operation, order: seq<string>)
    ensures forall rec :: AfterWrite(op, rec, order, PreparingSource) == Some(AfterPrepare(rec, 0))
    ensures forall rec :: AfterWrite(op, rec, order, IndexingSearch) == Some(AfterIndex(op, order, 0))
    ensures forall rec :: AfterWrite(op, rec, order, IndexingGraph) == Some(AfterGraph(rec, 0))
    ensures forall rec :: AfterWrite(op, rec, order, Verifying) == Some(AfterVerify(rec, 0))
    ensures forall rec :: AfterWrite(op, rec, order, Ready) == None
  {}

  ghost predicate AllVerified(w: World, id: string, members: seq<Member>) {
    forall i :: 0 <= i < |members| ==> Verified(w, id, members[i])
  }

  lemma AllVerifiedThen(w: World, w': World, id: string, members: seq<Member>)
    requires AllVerified(w', id, members)
    requires w.clones == w'.clones && w.trees == w'.trees && w.shards == w'.shards && w.graphs == w'.graphs
    ensures AllVerified(w, id, members)
  {
    hide Verified;
    forall i | 0 <= i < |members| ensures Verified(w, id, members[i]) {
      VerifiedThen(w, w', id, members[i]);
    }
  }

  lemma CheckActs(w: World, p: nat, q: Process, said: Outcome)
    requires p in w.processes && w.processes[p] == q && q.ContextRun? && q.pc.Check?
    ensures Apply(w, Act(p, said)) == DoCheck(w, p, q, said)
  {
    hide DoCheck;
  }

  lemma CreatedGoesOn(op: Operation, rec: Record, order: seq<string>)
    ensures AfterWrite(op, rec, order, Creating) == Some(Write(Resolving))
  {}

  lemma ResolvedGoesOn(op: Operation, rec: Record, order: seq<string>)
    ensures AfterWrite(op, rec, order, Resolving) == Some(Write(PreparingSource))
  {}

  lemma PinsAreNamed(id: string, pins: seq<string>, revisions: seq<string>)
    requires |pins| == |revisions| && forall i :: 0 <= i < |revisions| ==> |revisions[i]| == FULL_SHA
    ensures RepositoriesOf(PinnedMembers(id, pins, revisions)) == pins
    ensures RevisionsOf(PinnedMembers(id, pins, revisions)) == revisions
    ensures VerifyIdentity(id, PinnedMembers(id, pins, revisions))
  {
    hide SearchRef, GraphRef;
  }

  function RevisionsOf(members: seq<Member>): (revisions: seq<string>)
    ensures |revisions| == |members| && forall i :: 0 <= i < |members| ==> revisions[i] == members[i].revision
  {
    seq(|members|, i requires 0 <= i < |members| => members[i].revision)
  }

  /** Whenever the process is about to file a record, its names are nobody else's. */
  ghost predicate FreshAtFiling(start: World, p: nat, labels: seq<Label>) {
    forall k :: 0 <= k <= |labels| && Run(start, labels[..k]).Some? && Creates(Run(start, labels[..k]).value, p) ==>
      FreshNames(Run(start, labels[..k]).value, Run(start, labels[..k]).value.processes[p])
  }

  lemma FreshFirst(w: World, p: nat, labels: seq<Label>)
    requires FreshAtFiling(w, p, labels)
    ensures Creates(w, p) ==> FreshNames(w, w.processes[p])
  {
    hide FreshNames;
    assert labels[..0] == [];
  }

  lemma FreshLater(w: World, p: nat, labels: seq<Label>)
    requires FreshAtFiling(w, p, labels) && labels != [] && Apply(w, labels[0]).Some?
    ensures FreshAtFiling(Apply(w, labels[0]).value, p, labels[1..])
  {
    hide FreshNames, Apply;
    var next := Apply(w, labels[0]).value;
    forall k | 0 <= k <= |labels[1..]| && Run(next, labels[1..][..k]).Some? && Creates(Run(next, labels[1..][..k]).value, p)
      ensures FreshNames(Run(next, labels[1..][..k]).value, Run(next, labels[1..][..k]).value.processes[p])
    {
      assert labels[..k + 1][1..] == labels[1..][..k];
      assert Run(w, labels[..k + 1]) == Run(next, labels[1..][..k]);
    }
  }

  /** Only a create files a record. */
  lemma FilesOnlyInCreate(home: Homes, w: World, p: nat)
    requires Inv(home, w) && p in w.processes && w.processes[p].ContextRun? && !w.processes[p].op.Create?
    ensures !Creates(w, p)
  {
    hide GlobalOk, FreshNames;
    assert LocalOk(home, w, w.processes[p]);
  }

  lemma ActsOn(w: World, p: nat, out: Outcome)
    requires p in w.processes && w.processes[p].ContextRun? && Apply(w, Act(p, out)).Some?
    ensures var w' := Apply(w, Act(p, out)).value;
            p in w'.processes ==> w'.processes[p].ContextRun? && w'.processes[p].op == w.processes[p].op
  {
    hide ActContext;
  }

  /** What one command does keeps the discipline by itself, but for a create's names. */
  lemma {:induction false} OwnActsDisciplined(home: Homes, w: World, p: nat, labels: seq<Label>)
    requires Inv(home, w) && OwnActs(labels, p) && Run(w, labels).Some?
    requires p in w.processes ==> w.processes[p].ContextRun? && (w.processes[p].op.Create? ==> FreshAtFiling(w, p, labels))
    ensures DisciplinedRun(home, w, labels)
    decreases |labels|
  {
    hide Inv, FreshAtFiling, Creates, FreshNames, ActContext;
    if labels != [] {
      var l := labels[0];
      assert l.Act? && l.p == p && p in w.processes;
      var next := Apply(w, l).value;
      if w.processes[p].op.Create? {
        FreshFirst(w, p, labels);
        FreshLater(w, p, labels);
      } else {
        FilesOnlyInCreate(home, w, p);
      }
      StepInv(home, w, l);
      ActsOn(w, p, l.out);
      OwnActsDisciplined(home, next, p, labels[1..]);
    }
  }

  /** Wherever a command is, or wherever it ended: of a data directory in order it leaves one in order - a
      create too, when its names are fresh as it files its record. A context it leaves READY is built,
      and of an id it leaves without a record there is no worktree. */
  lemma WhatCommandsLeave(home: Homes, command: Command)
    requires command.Valid() && Inv(home, command.start)
    requires command.op.Create? ==> FreshAtFiling(command.start, command.p, command.labels)
    ensures Inv(home, command.Now()) && DisciplinedRun(home, command.start, command.labels)
    ensures command.id in command.records && command.records[command.id].state == Ready ==>
              forall m :: m in command.records[command.id].members ==> Built(command.Now(), command.id, m)
    ensures command.id !in command.records ==> forall k: (string, string) :: k.1 == command.id ==> k !in command.trees
  {
    OwnActsDisciplined(home, command.start, command.p, command.labels);
    RunInv(home, command.start, command.labels);
    LeftInOrder(home, command.Now(), command.id);
  }

  lemma LeftInOrder(home: Homes, w: World, id: string)
    requires Inv(home, w)
    ensures id in w.records && w.records[id].state == Ready ==> forall m :: m in w.records[id].members ==> Built(w, id, m)
    ensures id !in w.records ==> forall k: (string, string) :: k.1 == id ==> k !in w.trees
  {
    hide LocalOk;
  }

  // ---------------------------------------------------------------- the record first

  ghost predicate SameArtifacts(w: World, w': World) {
    w'.clones == w.clones && w'.trees == w.trees && w'.shards == w.shards && w'.graphs == w.graphs
  }

  /** A create in progress: not yet filed, with nothing touched, or filed. */
  ghost predicate FiledOrUntouched(start: World, w: World, p: nat, id: string) {
    && (id in w.records || SameArtifacts(start, w))
    && (p in w.processes ==>
          var q := w.processes[p];
          && q.ContextRun? && q.op.Create? && q.id == id && q.pc != Delete
          && (q.pc.Check? || q.pc == Write(Creating) || id in w.records))
  }

  lemma CreateChecksOnly(w: World, p: nat, q: Process, out: Outcome)
    requires q.ContextRun? && q.op.Create? && q.pc.Check? && DoCheck(w, p, q, out).Some?
    ensures var w' := DoCheck(w, p, q, out).value;
            && SameArtifacts(w, w') && w'.records == w.records
            && (p in w'.processes ==> w'.processes[p].ContextRun? && w'.processes[p].pc == Write(Creating))
  {
    hide LockNames, RepositoriesOf, PinnedMembers, OnlyMoves;
  }

  lemma CreateFiles(w: World, p: nat, q: Process, s: Stage)
    requires q.ContextRun? && q.op.Create? && q.pc == Write(s) && (s == Creating || q.id in w.records)
    ensures var w' := DoWrite(w, p, q, s);
            q.id in w'.records && (p in w'.processes ==> w'.processes[p].ContextRun? && w'.processes[p].pc != Delete)
  {
    hide Advances, OnlyMoves;
  }

  /** Where a step leaves the process, if it goes on. */
  ghost predicate NotDeleting(w: World, p: nat) {
    p in w.processes ==> w.processes[p].ContextRun? && w.processes[p].pc != Delete
  }

  lemma StopNotDeleting(w: World, p: nat, q: Process)
    requires q.ContextRun?
    ensures forall w0: World :: NotDeleting(Stop(w0, p, q), p)
    ensures forall w0: World, q': Process :: q'.ContextRun? && q'.pc != Delete ==> NotDeleting(Goto(w0, p, q'), p)
    ensures forall w0: World :: NotDeleting(Exit(w0, p), p)
  {}

  lemma BuildNotDeleting(w: World, p: nat, q: Process, i: nat, out: Outcome)
    requires q.ContextRun? && i < |q.rec.members|
    ensures DoPrepare(w, p, q, i, out).Some? ==> NotDeleting(DoPrepare(w, p, q, i, out).value, p)
    ensures DoGraph(w, p, q, i, out).Some? ==> NotDeleting(DoGraph(w, p, q, i, out).value, p)
    ensures NotDeleting(DoVerify(w, p, q, i, out), p)
  {
    hide NotDeleting, Stop, Goto, Exit, Leave, HasCommit, Verified, VerifyIdentity, OnlyMoves;
    StopNotDeleting(w, p, q);
  }

  lemma NextRepository(q: Process)
    requires q.ContextRun? && q.op.Create?
    ensures forall i :: AfterIndex(q.op, q.order, i) != Delete
  {}

  lemma IndexNotDeleting(w: World, p: nat, q: Process, i: nat, sub: Indexing, out: Outcome)
    requires q.ContextRun? && q.op.Create? && i < |q.order| && DoIndex(w, p, q, i, sub, out).Some?
    ensures NotDeleting(DoIndex(w, p, q, i, sub, out).value, p)
  {
    hide NotDeleting, Stop, Goto, Exit, Wanted, OnlyMoves, AfterIndex;
    NextRepository(q);
    StopNotDeleting(w, p, q);
  }

  lemma DropNotDeleting(w: World, p: nat, q: Process, i: nat, out: Outcome)
    requires q.ContextRun? && q.op.Create? && i < |q.rec.members|
    ensures DoDropGraph(w, p, q, i, out).Some? ==> NotDeleting(DoDropGraph(w, p, q, i, out).value, p)
    ensures DoDropRef(w, p, q, i, out).Some? ==> NotDeleting(DoDropRef(w, p, q, i, out).value, p)
  {
    hide NotDeleting, Stop, Goto, Exit, Leave, OnlyMoves;
    StopNotDeleting(w, p, q);
  }

  lemma DropTreeNotDeleting(w: World, p: nat, q: Process, i: nat, out: Outcome)
    requires q.ContextRun? && q.op.Create? && i < |q.rec.members| && DoDropTree(w, p, q, i, out).Some?
    ensures NotDeleting(DoDropTree(w, p, q, i, out).value, p)
  {
    hide NotDeleting, Stop, Goto, Exit, Leave, OnlyMoves;
    StopNotDeleting(w, p, q);
  }

  /** No call of a tool gets a create to where a record is deleted. */
  lemma CreateNeverDeletes(w: World, p: nat, q: Process, out: Outcome)
    requires q.ContextRun? && q.op.Create? && ActArtifact(w, p, q, out).Some?
    ensures ActArtifact(w, p, q, out).value.records == w.records && NotDeleting(ActArtifact(w, p, q, out).value, p)
  {
    hide NotDeleting, OnlyMoves, DoPrepare, DoIndex, DoGraph, DoVerify, DoDropGraph, DoDropTree, DoDropRef;
    match q.pc
    case Prepare(i) => BuildNotDeleting(w, p, q, i, out);
    case Index(i, sub) => IndexNotDeleting(w, p, q, i, sub, out);
    case BuildGraph(i) => BuildNotDeleting(w, p, q, i, out);
    case Verify(i) => BuildNotDeleting(w, p, q, i, out);
    case DropGraph(i) => DropNotDeleting(w, p, q, i, out);
    case DropTree(i) => DropTreeNotDeleting(w, p, q, i, out);
    case DropRef(i) => DropNotDeleting(w, p, q, i, out);
    case _ =>
  }

  lemma CreateActs(start: World, w: World, p: nat, id: string, out: Outcome)
    requires FiledOrUntouched(start, w, p, id) && p in w.processes && Apply(w, Act(p, out)).Some?
    ensures FiledOrUntouched(start, Apply(w, Act(p, out)).value, p, id)
  {
    hide DoCheck, DoWrite, ActArtifact;
    var q := w.processes[p];
    ActsOn(w, p, out);
    assert OnlyMoves(w, Apply(w, Act(p, out)).value, p, q) by { hide OnlyMoves, ActContext; }
    match q.pc
    case Locking =>
    case Check => CreateChecksOnly(w, p, q, out);
    case Write(s) => CreateFiles(w, p, q, s);
    case _ => CreateNeverDeletes(w, p, q, out);
  }

  lemma {:induction false} FiledFirstFrom(start: World, w: World, p: nat, id: string, labels: seq<Label>)
    requires FiledOrUntouched(start, w, p, id) && OwnActs(labels, p) && Run(w, labels).Some?
    ensures FiledOrUntouched(start, Run(w, labels).value, p, id)
    decreases |labels|
  {
    hide FiledOrUntouched, ActContext;
    if labels != [] {
      var l := labels[0];
      assert l.Act? && l.p == p && p in w.processes;
      CreateActs(start, w, p, id, l.out);
      FiledFirstFrom(start, Apply(w, l).value, p, id, labels[1..]);
    }
  }

  /** The record first, the artifacts after: at every point of a create, either its record is filed or
      nothing at all has been touched. */
  lemma FiledFirst(command: Command, k: nat)
    requires command.Valid() && command.op.Create? && k <= |command.labels|
    requires command.start.processes[command.p].pc.Check?
    ensures Run(command.start, command.labels[..k]).Some?
    ensures var w := Run(command.start, command.labels[..k]).value; command.id in w.records || SameArtifacts(command.start, w)
  {
    var start, labels := command.start, command.labels;
    RunParts(start, labels, k);
    hide Run;
    FiledFirstFrom(start, start, command.p, command.id, labels[..k]);
  }

  lemma {:induction false} RunParts(w: World, labels: seq<Label>, k: nat)
    requires Run(w, labels).Some? && k <= |labels|
    ensures Run(w, labels[..k]).Some?
    decreases k
  {
    hide Apply;
    if k > 0 {
      PrefixRun(w, labels, k - 1);
      RunParts(Apply(w, labels[0]).value, labels[1..], k - 1);
    }
  }

  lemma PrepareActs(w: World, p: nat, q: Process, i: nat, said: Outcome, trees: map<(string, string), Artifact>, pc: Option<Pc>)
    requires q.ContextRun? && q.pc == Prepare(i) && i < |q.rec.members| && !q.op.Remove?
    requires var m := q.rec.members[i];
             var key := (m.repository, q.id);
             || (said.Done? && key !in w.trees && HasCommit(w.clones, m) && trees == w.trees[key := At(m.revision)] && pc == Some(AfterPrepare(q.rec, i + 1)))
             || (said.Broken? && trees == Leave(w.trees, key, said.left) && pc == Some(Write(Failed)))
    ensures ActArtifact(w, p, q, said) == Some(Moved(w.(trees := trees), p, q, pc))
  {}

  lemma GraphActs(w: World, p: nat, q: Process, i: nat, said: Outcome, graphs: map<string, Artifact>, pc: Option<Pc>)
    requires q.ContextRun? && q.pc == BuildGraph(i) && i < |q.rec.members| && !q.op.Remove?
    requires var m := q.rec.members[i];
             var key := (m.repository, q.id);
             || (said.Done? && key in w.trees && graphs == w.graphs[m.graphRef := w.trees[key]] && pc == Some(AfterGraph(q.rec, i + 1)))
             || (said.Broken? && graphs == Leave(w.graphs, m.graphRef, said.left) && pc == Some(Write(Failed)))
    ensures ActArtifact(w, p, q, said) == Some(Moved(w.(graphs := graphs), p, q, pc))
  {}

  lemma DropGraphActs(w: World, p: nat, q: Process, i: nat, said: Outcome, graphs: map<string, Artifact>, pc: Option<Pc>)
    requires q.ContextRun? && q.pc == DropGraph(i) && i < |q.rec.members|
    requires var m := q.rec.members[i];
             if q.op.Retry? && m.repository !in w.repositories then graphs == w.graphs && pc == None
             else || (said.Done? && graphs == w.graphs - {m.graphRef} && pc == Some(DropTree(i)))
                  || (said.Broken? && (m.graphRef in w.graphs || said.left.None?) && graphs == Leave(w.graphs, m.graphRef, said.left) && pc == None)
    ensures ActArtifact(w, p, q, said) == Some(Moved(w.(graphs := graphs), p, q, pc))
  {}

  lemma DropTreeDone(w: World, p: nat, q: Process, i: nat, pc: Pc)
    requires q.ContextRun? && q.pc == DropTree(i) && i < |q.rec.members|
    requires pc == if q.op.Remove? && q.rec.members[i].branch != "" then DropRef(i) else AfterDrop(q.op, q.rec, q.order, i + 1)
    ensures ActArtifact(w, p, q, Done) == Some(Moved(w.(trees := w.trees - {(q.rec.members[i].repository, q.id)}), p, q, Some(pc)))
  {
    hide AfterDrop, OnlyMoves;
  }

  lemma DropTreeFails(w: World, p: nat, q: Process, i: nat, left: Option<Artifact>)
    requires q.ContextRun? && q.pc == DropTree(i) && i < |q.rec.members|
    requires (q.rec.members[i].repository, q.id) in w.trees || left.None?
    ensures ActArtifact(w, p, q, Broken(left)) == Some(Moved(w.(trees := Leave(w.trees, (q.rec.members[i].repository, q.id), left)), p, q, None))
  {
    hide AfterDrop, OnlyMoves;
  }

  lemma DropRefActs(w: World, p: nat, q: Process, i: nat, said: Outcome, clones: map<string, Clone>, pc: Option<Pc>)
    requires q.ContextRun? && q.pc == DropRef(i) && i < |q.rec.members|
    requires var m := q.rec.members[i];
             || (said.Broken? && clones == w.clones && pc == None)
             || (said.Done? && pc == Some(AfterDrop(q.op, q.rec, q.order, i + 1)) &&
                 if m.repository !in w.clones then clones == w.clones
                 else w.clones[m.repository].Whole? &&
                      clones == w.clones[m.repository := Whole(w.clones[m.repository].commits, w.clones[m.repository].refs - {m.branch})])
    ensures ActArtifact(w, p, q, said) == Some(Moved(w.(clones := clones), p, q, pc))
  {}

  lemma PutActs(w: World, p: nat, q: Process, i: nat, todo: set<(string, string)>, refs: set<string>, e: (string, string))
    requires q.ContextRun? && q.pc == Index(i, Putting(todo, refs)) && i < |q.order| && e in todo
    requires q.order[i] in w.clones && w.clones[q.order[i]].Whole? && e.1 in w.clones[q.order[i]].commits
    ensures DoIndex(w, p, q, i, Putting(todo, refs), Picked(e)) ==
            Some(Goto(w.(clones := WithRef(w.clones, q.order[i], e)), p, q.(pc := Index(i, Putting(todo - {e}, refs + {e.0})))))
  {
    hide Wanted, AfterIndex, OnlyMoves;
  }

  lemma VerifyActs(w: World, p: nat, q: Process, i: nat, said: Outcome, pc: Pc)
    requires q.ContextRun? && q.pc == Verify(i) && i < |q.rec.members| && !q.op.Remove?
    requires var passes := Verified(w, q.id, q.rec.members[i]) && (i + 1 == |q.rec.members| ==> VerifyIdentity(q.id, q.rec.members));
             || (said.Done? && passes && pc == AfterVerify(q.rec, i + 1))
             || (said == Broken(None) && pc == Write(Failed))
    ensures ActArtifact(w, p, q, said) == Some(Moved(w, p, q, Some(pc)))
  {}

  lemma Written(w: World, p: nat, q: Process, next: Stage, pc: Option<Pc>)
    requires p in w.processes && w.processes[p] == q && q.ContextRun? && q.pc == Write(next)
    requires (Restarts(q.op, next) || Advances(q.rec.state, next)) && pc == AfterWrite(q.op, q.rec.(state := next), q.order, next)
    ensures var rec := q.rec.(state := next);
            Apply(w, Act(p, Done)) == Some(Moved(w.(records := w.records[q.id := rec]), p, q.(rec := rec), pc))
  {
    hide AfterWrite, Advances, Restarts;
  }

  lemma WrittenOnce(home: Homes, start: World, labels: seq<Label>, p: nat, before: World, q: Process, next: Stage, pc: Option<Pc>, after: World)
    requires Run(start, labels) == Some(before) && OwnActs(labels, p)
    requires p in before.processes && before.processes[p] == q && q.ContextRun? && q.pc == Write(next)
    requires (Restarts(q.op, next) || Advances(q.rec.state, next)) && pc == AfterWrite(q.op, q.rec.(state := next), q.order, next)
    requires var rec := q.rec.(state := next); after == Moved(before.(records := before.records[q.id := rec]), p, q.(rec := rec), pc)
    ensures Run(start, labels + [Act(p, Done)]) == Some(after) && OwnActs(labels + [Act(p, Done)], p)
    ensures Inv(home, before) && (next == Creating ==> FreshNames(before, q)) ==> Inv(home, after)
  {
    hide Run, Apply, Inv, FreshNames, AfterWrite, Advances, Restarts;
    Written(before, p, q, next, pc);
    OneStepMore(start, labels, p, before, Done, after);
    OrderKept(home, before, p, Done, after);
  }

  lemma Refused(before: World, p: nat, q: Process, next: Stage, after: World)
    requires p in before.processes && before.processes[p] == q && q.ContextRun? && q.pc == Write(next)
    requires !Restarts(q.op, next) && !Advances(q.rec.state, next)
    requires after == before.(processes := before.processes - {p})
    ensures Apply(before, Act(p, Done)) == Some(after)
  {
    hide AfterWrite, Advances, Restarts;
  }
}
