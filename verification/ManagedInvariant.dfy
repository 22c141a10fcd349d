/** What holds in every reachable state of the managed data directory, stated once.

    `home` gives each context id the set of repositories it is created over: the locks of an id are
    then the same whoever works on it. That is a premise about how the commands are used, not
    something the code checks (see `Disciplined`). */
module ManagedInvariant {
  import opened Names
  import opened NameOrder
  import opened Lifecycle
  import opened Managed

  type Homes = string -> set<string>

  ghost predicate Same<K(!new), V(!new)>(a: map<K, V>, b: map<K, V>, k: K) {
    (k in a <==> k in b) && (k in a ==> a[k] == b[k])
  }

  // ---------------------------------------------------------------- records and artifacts

  /** A record over exactly its id's repositories, one member each, under the generated names. */
  ghost predicate WellFormed(home: Homes, id: string, members: seq<Member>) {
    && members != []
    && (forall i, j :: 0 <= i < j < |members| ==> Separate(members[i], members[j]))
    && home(id) == (set m | m in members :: m.repository)
    && VerifyIdentity(id, members)
    && (forall m :: m in members ==> m.branch != "")
  }

  /** Two members of one context: different repositories, different graphs. */
  ghost predicate Separate(m: Member, n: Member) {
    m.repository != n.repository && m.graphRef != n.graphRef
  }

  /** Two members that share neither a graph name nor a branch of one clone. */
  ghost predicate Apart(m: Member, n: Member) {
    m.graphRef != n.graphRef && (m.repository == n.repository ==> m.branch != n.branch)
  }

  ghost predicate NamesApart(records: map<string, Record>) {
    forall c, d, m, n ::
      c in records && d in records && c != d && m in records[c].members && n in records[d].members ==> Apart(m, n)
  }

  /** A member's repository is managed, and its clone has the commit the member pins. */
  ghost predicate Backed(repositories: map<string, RepositoryState>, clones: map<string, Clone>, m: Member) {
    m.repository in repositories && HasCommit(clones, m)
  }

  ghost predicate HasTree(trees: map<(string, string), Artifact>, id: string, m: Member) {
    (m.repository, id) in trees && trees[(m.repository, id)] == At(m.revision)
  }

  ghost predicate HasRef(clones: map<string, Clone>, m: Member) {
    && m.repository in clones && clones[m.repository].Whole?
    && m.branch in clones[m.repository].refs && clones[m.repository].refs[m.branch] == m.revision
  }

  ghost predicate HasShard(shards: map<string, map<string, string>>, m: Member) {
    m.repository in shards && m.branch in shards[m.repository] && shards[m.repository][m.branch] == m.revision
  }

  ghost predicate HasGraph(graphs: map<string, Artifact>, m: Member) {
    m.graphRef in graphs && graphs[m.graphRef] == At(m.revision)
  }

  /** Everything READY claims about one member: worktree, search ref, shard branch and graph, all
      at the recorded revision. */
  ghost predicate Built(w: World, id: string, m: Member) {
    HasTree(w.trees, id, m) && HasRef(w.clones, m) && HasShard(w.shards, m) && HasGraph(w.graphs, m)
  }

  ghost predicate NamesGraph(records: map<string, Record>, g: string) {
    exists id, m :: id in records && m in records[id].members && m.graphRef == g
  }

  ghost predicate NamesBranch(records: map<string, Record>, r: string, b: string) {
    exists id, m :: id in records && m in records[id].members && m.repository == r && m.branch == b
  }

  // The invariant in parts, each over the tables it speaks of and nothing else.

  ghost predicate AllWellFormed(home: Homes, records: map<string, Record>) {
    forall id :: id in records ==> WellFormed(home, id, records[id].members)
  }

  ghost predicate AllBacked(records: map<string, Record>, repositories: map<string, RepositoryState>, clones: map<string, Clone>) {
    forall id, m :: id in records && m in records[id].members ==> Backed(repositories, clones, m)
  }

  ghost predicate ReadyTrees(records: map<string, Record>, trees: map<(string, string), Artifact>) {
    forall id, m :: id in records && records[id].state == Ready && m in records[id].members ==> HasTree(trees, id, m)
  }

  ghost predicate ReadyRefs(records: map<string, Record>, clones: map<string, Clone>) {
    forall id, m :: id in records && records[id].state == Ready && m in records[id].members ==> HasRef(clones, m)
  }

  ghost predicate ReadyShards(records: map<string, Record>, shards: map<string, map<string, string>>) {
    forall id, m :: id in records && records[id].state == Ready && m in records[id].members ==> HasShard(shards, m)
  }

  ghost predicate ReadyGraphs(records: map<string, Record>, graphs: map<string, Artifact>) {
    forall id, m :: id in records && records[id].state == Ready && m in records[id].members ==> HasGraph(graphs, m)
  }

  ghost predicate OwnedTrees(home: Homes, records: map<string, Record>, trees: map<(string, string), Artifact>) {
    forall k :: k in trees ==> k.1 in records && k.0 in home(k.1)
  }

  ghost predicate OwnedGraphs(records: map<string, Record>, graphs: map<string, Artifact>) {
    forall g :: g in graphs ==> NamesGraph(records, g)
  }

  ghost predicate OwnedRefs(records: map<string, Record>, clones: map<string, Clone>) {
    forall r, b :: r in clones && clones[r].Whole? && b in clones[r].refs ==> NamesBranch(records, r, b)
  }

  /** A shard carries at least one branch, and only branches of records. */
  ghost predicate OwnedShards(records: map<string, Record>, shards: map<string, map<string, string>>) {
    && (forall r :: r in shards ==> shards[r] != map[])
    && (forall r, b :: r in shards && b in shards[r] ==> NamesBranch(records, r, b))
  }

  /** What holds of the tables whatever the processes are doing: records are well formed and their
      names distinct, no context is stranded, READY means built, and no artifact is an orphan. */
  ghost predicate GlobalOk(home: Homes, w: World) {
    && AllWellFormed(home, w.records)
    && NamesApart(w.records)
    && AllBacked(w.records, w.repositories, w.clones)
    && ReadyTrees(w.records, w.trees)
    && ReadyRefs(w.records, w.clones)
    && ReadyShards(w.records, w.shards)
    && ReadyGraphs(w.records, w.graphs)
    && OwnedTrees(home, w.records, w.trees)
    && OwnedGraphs(w.records, w.graphs)
    && OwnedRefs(w.records, w.clones)
    && OwnedShards(w.records, w.shards)
  }

  // ---------------------------------------------------------------- one operation's progress

  function Members(q: Process): nat
    requires q.ContextRun?
  {
    |q.rec.members|
  }

  /** How many members have their worktree; from there up to `TreesClear` there is none. */
  function TreesBuilt(q: Process): nat
    requires q.ContextRun?
  {
    match q.pc
    case Prepare(i) => i
    case Write(s) => if s == IndexingSearch || s == IndexingGraph || s == Verifying || s == Ready then Members(q) else 0
    case Index(_, _) => Members(q)
    case BuildGraph(_) => Members(q)
    case Verify(_) => Members(q)
    case _ => 0
  }

  function TreesClear(q: Process): nat
    requires q.ContextRun?
  {
    match q.pc
    case DropGraph(i) => i
    case DropTree(i) => i
    case Write(s) => if s == Resolving || s == PreparingSource then Members(q) else 0
    case Prepare(_) => Members(q)
    case _ => 0
  }

  function ShardsBuilt(q: Process): nat
    requires q.ContextRun?
  {
    match q.pc
    case Index(i, _) => i
    case Write(s) => if s == IndexingGraph || s == Verifying || s == Ready then |q.order| else 0
    case BuildGraph(_) => |q.order|
    case Verify(_) => |q.order|
    case _ => 0
  }

  function GraphsBuilt(q: Process): nat
    requires q.ContextRun?
  {
    match q.pc
    case BuildGraph(i) => i
    case Write(s) => if s == Verifying || s == Ready then Members(q) else 0
    case Verify(_) => Members(q)
    case _ => 0
  }

  /** What a create or a retry has built so far. */
  ghost predicate BuildFacts(w: World, q: Process)
    requires q.ContextRun?
  {
    && (forall k :: 0 <= k < Members(q) && k < TreesBuilt(q) ==> HasTree(w.trees, q.id, q.rec.members[k]))
    && (forall k :: TreesBuilt(q) <= k < Members(q) && k < TreesClear(q) ==>
          (q.rec.members[k].repository, q.id) !in w.trees)
    && (forall j, m :: 0 <= j < |q.order| && j < ShardsBuilt(q) && m in q.rec.members && q.order[j] == m.repository ==>
          HasRef(w.clones, m) && HasShard(w.shards, m))
    && (forall k :: 0 <= k < Members(q) && k < GraphsBuilt(q) ==> HasGraph(w.graphs, q.rec.members[k]))
  }

  function GraphsGone(q: Process): nat
    requires q.ContextRun?
  {
    match q.pc
    case DropGraph(i) => i
    case DropTree(i) => i + 1
    case DropRef(i) => i + 1
    case Index(_, _) => Members(q)
    case Delete => Members(q)
    case _ => 0
  }

  function TreesGone(q: Process): nat
    requires q.ContextRun?
  {
    match q.pc
    case DropGraph(i) => i
    case DropTree(i) => i
    case DropRef(i) => i + 1
    case Index(_, _) => Members(q)
    case Delete => Members(q)
    case _ => 0
  }

  function RefsGone(q: Process): nat
    requires q.ContextRun?
  {
    match q.pc
    case DropGraph(i) => i
    case DropTree(i) => i
    case DropRef(i) => i
    case Index(_, _) => Members(q)
    case Delete => Members(q)
    case _ => 0
  }

  function ShardsGone(q: Process): nat
    requires q.ContextRun?
  {
    match q.pc
    case Index(i, _) => i
    case Delete => |q.order|
    case _ => 0
  }

  ghost predicate NoRef(clones: map<string, Clone>, m: Member) {
    m.repository in clones && clones[m.repository].Whole? ==> m.branch !in clones[m.repository].refs
  }

  ghost predicate NoShard(shards: map<string, map<string, string>>, m: Member) {
    m.repository in shards ==> m.branch !in shards[m.repository]
  }

  /** What a removal has taken away so far. */
  ghost predicate RemoveFacts(w: World, q: Process)
    requires q.ContextRun?
  {
    && (forall k :: 0 <= k < Members(q) && k < GraphsGone(q) ==> q.rec.members[k].graphRef !in w.graphs)
    && (forall k :: 0 <= k < Members(q) && k < TreesGone(q) ==> (q.rec.members[k].repository, q.id) !in w.trees)
    && (forall k :: 0 <= k < Members(q) && k < RefsGone(q) ==> NoRef(w.clones, q.rec.members[k]))
    && (forall j, m :: 0 <= j < |q.order| && j < ShardsGone(q) && m in q.rec.members && q.order[j] == m.repository ==>
          NoShard(w.shards, m))
  }

  /** A half-done rebuild: the refs not in `todo` are written at their recorded revisions, and
      `refs` names exactly those. */
  ghost predicate IndexingOk(w: World, q: Process, i: nat, sub: Indexing)
    requires q.ContextRun? && i < |q.order|
  {
    sub.Putting? ==>
      var r := q.order[i];
      var wanted := Wanted(w.records, r);
      && r in w.clones && w.clones[r].Whole?
      && sub.todo <= wanted
      && (forall e :: e in wanted && e !in sub.todo ==> e.0 in sub.refs)
      && (forall b :: b in sub.refs ==> b in w.clones[r].refs && (b, w.clones[r].refs[b]) in wanted)
  }

  /** The state the record is in at each point, and the indices in range. */
  ghost predicate PcOk(w: World, q: Process)
    requires q.ContextRun?
  {
    var s := q.rec.state;
    match q.pc
    case Locking => false
    case Check => false
    case Write(next) =>
      (match next
       case Creating => false
       case Resolving => (q.op.Create? && s == Creating) || (q.op.Retry? && s != Ready && s != Removing)
       case Removing => q.op.Remove?
       case Failed => !q.op.Remove? && (s == PreparingSource || s == IndexingSearch || s == IndexingGraph || s == Verifying)
       case _ => !q.op.Remove? && Position(next) == Position(s) + 1 && Position(s) >= 1)
    case Prepare(i) => !q.op.Remove? && i < Members(q) && s == PreparingSource
    case Index(i, sub) =>
      i < |q.order| && s == (if q.op.Remove? then Removing else IndexingSearch) && IndexingOk(w, q, i, sub)
    case BuildGraph(i) => !q.op.Remove? && i < Members(q) && s == IndexingGraph
    case Verify(i) => !q.op.Remove? && i < Members(q) && s == Verifying
    case DropGraph(i) => i < Members(q) && DropsIn(q.op, s)
    case DropTree(i) => i < Members(q) && DropsIn(q.op, s)
    case DropRef(i) => i < Members(q) && q.op.Remove? && s == Removing
    case Delete => q.op.Remove? && s == Removing
  }

  predicate DropsIn(op: Operation, s: Stage) {
    (op.Remove? && s == Removing) || (op.Retry? && s != Ready && s != Removing)
  }

  /** The repositories to index are those of the record. */
  ghost predicate OrderOk(repositories: set<string>, members: seq<Member>, order: seq<string>) {
    && order != []
    && (forall j :: 0 <= j < |order| ==> order[j] in repositories)
    && (forall m :: m in members ==> m.repository in order)
  }

  /** An operation that holds all its locks and has read its record. */
  ghost predicate WorkOk(home: Homes, w: World, q: Process)
    requires q.ContextRun?
  {
    && WellFormed(home, q.id, q.rec.members)
    && OrderOk(home(q.id), q.rec.members, q.order)
    && (if q.pc == Write(Creating) then
          && q.op.Create? && q.rec.state == Creating && q.id !in w.records
          && forall m :: m in q.rec.members ==> Backed(w.repositories, w.clones, m)
        else
          && q.id in w.records && w.records[q.id] == q.rec
          && PcOk(w, q)
          && if q.op.Remove? then RemoveFacts(w, q) else BuildFacts(w, q))
  }

  ghost predicate LocalOk(home: Homes, w: World, q: Process) {
    match q
    case ContextRun(op, id, want, held, rec, order, pc) =>
      && want != [] && Increasing(want)
      && (forall r :: r in want <==> r in home(id))
      && held <= |want|
      && (pc.Locking? <==> held < |want|)
      && (op.Create? ==> op.pins != [] && Unrepeated(op.pins) && forall r :: r in op.pins <==> r in home(id))
      && (pc.Locking? || pc.Check? || WorkOk(home, w, q))
    case RepositoryRun(rop, r, rpc) =>
      && (rop == Forget && (rpc.Clone_? || rpc.File?) ==>
            forall id :: id in w.records ==> r !in RepositoriesOf(w.records[id].members))
      && (rop == Add && (rpc.Clone_? || rpc.File?) ==> r !in w.repositories)
    case Server(spc) => spc.Serving? ==> spc.snapshot == ReadyRecords(w.records)
  }

  /** No two processes hold one repository's lock. */
  ghost predicate Exclusive(w: World) {
    forall p, q :: p in w.processes && q in w.processes && p != q ==> Holds(w.processes[p]) !! Holds(w.processes[q])
  }

  /** A server that holds the data directory's lock runs beside no command that needs it shared and
      beside no other server. */
  ghost predicate ServerAlone(w: World) {
    forall p, q :: p in w.processes && q in w.processes && p != q && HoldsServer(w.processes[p]) ==>
      !HoldsManagement(w.processes[q]) && !HoldsServer(w.processes[q])
  }

  ghost predicate Inv(home: Homes, w: World) {
    && GlobalOk(home, w)
    && Exclusive(w)
    && ServerAlone(w)
    && forall p :: p in w.processes ==> LocalOk(home, w, w.processes[p])
  }

  // ---------------------------------------------------------------- premises

  /** The two things the code relies on and does not check. An id is always created over the same
      repositories; and the names generated for a new record are not those of another record. */
  ghost predicate Disciplined(home: Homes, w: World, l: Label) {
    match l
    case StartContext(_, op, id) => op.Create? ==> forall r :: r in home(id) <==> r in op.pins
    case Act(p, _) => Creates(w, p) ==> FreshNames(w, w.processes[p])
    case _ => true
  }

  /** The process is about to write a record that does not exist yet. */
  ghost predicate Creates(w: World, p: nat) {
    p in w.processes && w.processes[p].ContextRun? && w.processes[p].pc == Write(Creating)
  }

  ghost predicate FreshNames(w: World, q: Process)
    requires q.ContextRun?
  {
    forall d, m, n :: d in w.records && d != q.id && m in q.rec.members && n in w.records[d].members ==> Apart(m, n)
  }
}
