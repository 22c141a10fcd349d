/** The managed data directory as one global state, and every atomic step a process can take in it.

    A process is one run of `context create`, `context retry`, `context remove`, `repo add`,
    `repo sync`, `repo remove` or `serve --managed`. Its program counter names the next thing it
    does to the outside world; between any two of those any other process may step, and any process
    may die, which drops every lock it held. A tool either performs its documented effect or leaves
    whatever it was building in an arbitrary condition. */
module Managed {
  import opened Options
  import opened Names
  import opened NameOrder
  import opened Lifecycle

  /** A worktree or a graph: built from a revision, or left unusable by a tool that was stopped. */
  datatype Artifact = At(revision: string) | Partial

  /** A clone: the commits it has and the search refs under refs/heads/, or a damaged directory. */
  datatype Clone = Whole(commits: set<string>, refs: map<string, string>) | Damaged

  datatype RepositoryState = RepositoryReady | RepositoryFailed

  datatype Operation = Create(pins: seq<string>) | Retry | Remove

  /** How far one rebuild of a repository's index has got: about to read the records, or writing
      the refs still to do with the ones done so far. */
  datatype Indexing = Reading | Putting(todo: set<(string, string)>, refs: set<string>)

  /** What a context operation does next. */
  datatype Pc =
    | Locking
    | Check
    | Write(next: Stage)
    | Prepare(i: nat)
    | Index(i: nat, sub: Indexing)
    | BuildGraph(i: nat)
    | Verify(i: nat)
    | DropGraph(i: nat)
    | DropTree(i: nat)
    | DropRef(i: nat)
    | Delete

  datatype RepositoryOperation = Add | Sync | Forget

  /** What a repository operation does next. */
  datatype RepositoryPc = Waiting | Inspect | Clone_ | File(state: RepositoryState)

  datatype ServerPc = Queued | Locked | Serving(snapshot: map<string, Record>)

  datatype Process =
    | ContextRun(op: Operation, id: string, want: seq<string>, held: nat, rec: Record, order: seq<string>, pc: Pc)
    | RepositoryRun(rop: RepositoryOperation, name: string, rpc: RepositoryPc)
    | Server(spc: ServerPc)

  datatype World = World(
    records: map<string, Record>,
    repositories: map<string, RepositoryState>,
    clones: map<string, Clone>,
    trees: map<(string, string), Artifact>,
    shards: map<string, map<string, string>>,
    graphs: map<string, Artifact>,
    processes: map<nat, Process>)

  const EMPTY: World := World(map[], map[], map[], map[], map[], map[], map[])

  /** How the outside world answers one step. */
  datatype Outcome =
    | Done
    | Broken(left: Option<Artifact>)
    | Resolved(revisions: seq<string>)
    | Picked(item: (string, string))
    | Fetched(commits: set<string>)

  datatype Label =
    | StartContext(p: nat, op: Operation, id: string)
    | StartRepository(p: nat, rop: RepositoryOperation, name: string)
    | StartServer(p: nat)
    | Acquire(p: nat)
    | Act(p: nat, out: Outcome)
    | Crash(p: nat)

  // ---------------------------------------------------------------- locks

  /** The repository locks a process holds. */
  function Holds(q: Process): set<string> {
    match q
    case ContextRun(_, _, want, held, _, _, _) => set j | 0 <= j < held && j < |want| :: want[j]
    case RepositoryRun(_, name, rpc) => if rpc.Waiting? then {} else {name}
    case Server(_) => {}
  }

  /** Whether a process holds the data directory's lock shared, as every command that changes
      what a server serves does for its whole length. */
  predicate HoldsManagement(q: Process) {
    q.ContextRun? || (q.RepositoryRun? && q.rop == Forget)
  }

  /** Whether a process holds the data directory's lock exclusively. */
  predicate HoldsServer(q: Process) {
    q.Server? && !q.spc.Queued?
  }

  predicate ServerRuns(w: World) {
    exists p :: p in w.processes && HoldsServer(w.processes[p])
  }

  predicate ManagementRuns(w: World) {
    exists p :: p in w.processes && HoldsManagement(w.processes[p])
  }

  predicate LockFree(w: World, r: string) {
    forall p :: p in w.processes ==> r !in Holds(w.processes[p])
  }

  // ---------------------------------------------------------------- moving on

  function Goto(w: World, p: nat, q: Process): World {
    w.(processes := w.processes[p := q])
  }

  function Exit(w: World, p: nat): World {
    w.(processes := w.processes - {p})
  }

  /** One process at one operation: what it is doing changes, not what it is for; once it has read or
      made its record, the record's members stay as they are. */
  predicate SameOperation(q: Process, q': Process) {
    match q
    case ContextRun(op, id, want, held, rec, _, pc) =>
      q'.ContextRun? && q'.op == op && q'.id == id && q'.want == want && q'.held == held &&
      (!pc.Check? ==> q'.rec.members == rec.members)
    case RepositoryRun(rop, name, _) => q'.RepositoryRun? && q'.rop == rop && q'.name == name
    case Server(_) => q'.Server?
  }

  /** Of the processes, one goes on with its operation or ends. */
  predicate OnlyMoves(w: World, w': World, p: nat, q: Process) {
    || w'.processes == w.processes - {p}
    || (p in w'.processes && w'.processes == w.processes[p := w'.processes[p]] && SameOperation(q, w'.processes[p]))
  }

  /** A stage that failed is recorded as FAILED; a removal or a cleanup that failed just stops. */
  function Stop(w: World, p: nat, q: Process): (r: World)
    requires q.ContextRun?
    ensures OnlyMoves(w, r, p, q)
  {
    if q.op.Remove? || q.pc.DropGraph? || q.pc.DropTree? then Exit(w, p)
    else Goto(w, p, q.(pc := Write(Failed)))
  }

  /** Going to work on a record: the repositories it is indexed in are sorted once. */
  function Reads(q: Process, rec: Record, pc: Pc): Process
    requires q.ContextRun?
  {
    q.(rec := rec, order := LockNames(RepositoriesOf(rec.members)), pc := pc)
  }

  /** The refs a repository's records say its clone and its shard have to hold. */
  function Wanted(records: map<string, Record>, r: string): set<(string, string)> {
    set id, m | id in records && records[id].state != Removing && m in records[id].members &&
                m.repository == r && m.branch != "" :: (m.branch, m.revision)
  }

  // where each loop over the members or the repositories goes next
  function AfterPrepare(rec: Record, i: nat): Pc { if i < |rec.members| then Prepare(i) else Write(IndexingSearch) }
  function AfterIndex(op: Operation, order: seq<string>, i: nat): Pc {
    if i < |order| then Index(i, Reading) else if op.Remove? then Delete else Write(IndexingGraph)
  }
  function AfterGraph(rec: Record, i: nat): Pc { if i < |rec.members| then BuildGraph(i) else Write(Verifying) }
  function AfterVerify(rec: Record, i: nat): Pc { if i < |rec.members| then Verify(i) else Write(Ready) }
  function AfterDrop(op: Operation, rec: Record, order: seq<string>, i: nat): Pc {
    if i < |rec.members| then DropGraph(i)
    else if op.Remove? then AfterIndex(op, order, 0) else Write(Resolving)
  }

  /** What a record write is followed by; READY and FAILED end the operation. */
  function AfterWrite(op: Operation, rec: Record, order: seq<string>, s: Stage): Option<Pc> {
    match s
    case Creating => Some(Write(Resolving))
    case Resolving => Some(Write(PreparingSource))
    case PreparingSource => Some(AfterPrepare(rec, 0))
    case IndexingSearch => Some(AfterIndex(op, order, 0))
    case IndexingGraph => Some(AfterGraph(rec, 0))
    case Verifying => Some(AfterVerify(rec, 0))
    case Removing => Some(AfterDrop(op, rec, order, 0))
    case Ready => None
    case Failed => None
  }

  // ---------------------------------------------------------------- context operations

  /** Under the locks: everything is read again, and a create resolves its revisions. */
  function DoCheck(w: World, p: nat, q: Process, out: Outcome): (r: Option<World>)
    requires q.ContextRun?
    ensures r.Some? ==> r.value == w.(processes := r.value.processes)
    ensures r.Some? && q.pc.Check? ==> OnlyMoves(w, r.value, p, q)
  {
    match q.op
    case Create(pins) =>
      if q.id in w.records || (exists i :: 0 <= i < |pins| && pins[i] !in w.repositories) then Some(Exit(w, p))
      else if out.Broken? then Some(Exit(w, p))
      else if out.Resolved? && |out.revisions| == |pins| &&
              forall i :: 0 <= i < |pins| ==>
                && pins[i] in w.clones && w.clones[pins[i]].Whole?
                && out.revisions[i] in w.clones[pins[i]].commits && |out.revisions[i]| == FULL_SHA
      then
        Some(Goto(w, p, Reads(q, Record(PinnedMembers(q.id, pins, out.revisions), Creating), Write(Creating))))
      else None
    case Retry =>
      if q.id !in w.records || w.records[q.id].state == Ready || w.records[q.id].state == Removing then Some(Exit(w, p))
      else (var rec := w.records[q.id];
            var q' := Reads(q, rec, Write(Resolving));
            Some(Goto(w, p, q'.(pc := AfterDrop(q.op, rec, q'.order, 0)))))
    case Remove =>
      if q.id !in w.records then Some(Exit(w, p))
      else Some(Goto(w, p, Reads(q, w.records[q.id], Write(Removing))))
  }

  /** The two writes that are not moves of the machine: the one that creates the record and the
      restart a retry makes. */
  predicate Restarts(op: Operation, s: Stage) {
    (op.Create? && s == Creating) || (op.Retry? && s == Resolving)
  }

  function DoWrite(w: World, p: nat, q: Process, s: Stage): (r: World)
    requires q.ContextRun?
    ensures r.records == (if Restarts(q.op, s) || Advances(q.rec.state, s) then w.records[q.id := q.rec.(state := s)] else w.records)
    ensures r == w.(records := r.records, processes := r.processes)
    ensures OnlyMoves(w, r, p, q)
  {
    if !Restarts(q.op, s) && !Advances(q.rec.state, s) then Exit(w, p)
    else
      var rec := q.rec.(state := s);
      var w' := w.(records := w.records[q.id := rec]);
      match AfterWrite(q.op, rec, q.order, s)
      case Some(pc) => Goto(w', p, q.(rec := rec, pc := pc))
      case None => Exit(w', p)
  }

  /** `git worktree add --detach` and the check of its HEAD. */
  function DoPrepare(w: World, p: nat, q: Process, i: nat, out: Outcome): (r: Option<World>)
    requires q.ContextRun? && i < |q.rec.members|
    ensures r.Some? ==> r.value == w.(trees := r.value.trees, processes := r.value.processes)
    ensures r.Some? ==> OnlyMoves(w, r.value, p, q)
  {
    var m := q.rec.members[i];
    var key := (m.repository, q.id);
    match out
    case Done =>
      if key !in w.trees && HasCommit(w.clones, m) then
        Some(Goto(w.(trees := w.trees[key := At(m.revision)]), p, q.(pc := AfterPrepare(q.rec, i + 1))))
      else None
    case Broken(left) => Some(Stop(w.(trees := Leave(w.trees, key, left)), p, q))
    case _ => None
  }

  predicate HasCommit(clones: map<string, Clone>, m: Member) {
    m.repository in clones && clones[m.repository].Whole? && m.revision in clones[m.repository].commits
  }

  /** Whatever a tool that did not finish left at one place. */
  function Leave<K, V>(at: map<K, V>, key: K, left: Option<V>): map<K, V> {
    match left
    case Some(v) => at[key := v]
    case None => at - {key}
  }

  /** One step of rebuilding a repository's index from the records. A failing tool leaves the
      shard as it was. */
  function DoIndex(w: World, p: nat, q: Process, i: nat, sub: Indexing, out: Outcome): (r: Option<World>)
    requires q.ContextRun? && i < |q.order|
    ensures r.Some? ==> r.value == w.(clones := r.value.clones, shards := r.value.shards, processes := r.value.processes)
    ensures r.Some? ==> OnlyMoves(w, r.value, p, q)
  {
    var r := q.order[i];
    var next := q.(pc := AfterIndex(q.op, q.order, i + 1));
    if out.Broken? then Some(Stop(w, p, q))
    else match sub
      case Reading =>
        if r !in w.clones then Some(Goto(w.(shards := w.shards - {r}), p, next))
        else Some(Goto(w, p, q.(pc := Index(i, Putting(Wanted(w.records, r), {})))))
      case Putting(todo, refs) =>
        if todo == {} then
          if refs == {} then Some(Goto(w.(shards := w.shards - {r}), p, next))
          else if r in w.clones && w.clones[r].Whole? && refs <= w.clones[r].refs.Keys then
            Some(Goto(w.(shards := w.shards[r := map b | b in refs :: w.clones[r].refs[b]]), p, next))
          else None
        else if out.Picked? && out.item in todo && r in w.clones && w.clones[r].Whole? &&
                out.item.1 in w.clones[r].commits
        then
          var c := w.clones[r];
          Some(Goto(w.(clones := w.clones[r := c.(refs := c.refs[out.item.0 := out.item.1])]), p,
            q.(pc := Index(i, Putting(todo - {out.item}, refs + {out.item.0})))))
        else None
  }

  /** `index_repository` on the worktree, under the generated name. */
  function DoGraph(w: World, p: nat, q: Process, i: nat, out: Outcome): (r: Option<World>)
    requires q.ContextRun? && i < |q.rec.members|
    ensures r.Some? ==> r.value == w.(graphs := r.value.graphs, processes := r.value.processes)
    ensures r.Some? ==> OnlyMoves(w, r.value, p, q)
  {
    var m := q.rec.members[i];
    var key := (m.repository, q.id);
    match out
    case Done =>
      if key in w.trees then
        Some(Goto(w.(graphs := w.graphs[m.graphRef := w.trees[key]]), p, q.(pc := AfterGraph(q.rec, i + 1))))
      else None
    case Broken(left) => Some(Stop(w.(graphs := Leave(w.graphs, m.graphRef, left)), p, q))
    case _ => None
  }

  /** Everything verification asks about one member: its commit, its checkout, its search ref, a
      shard of its repository and a graph of its name. */
  predicate Verified(w: World, id: string, m: Member) {
    && HasCommit(w.clones, m)
    && (m.repository, id) in w.trees && w.trees[(m.repository, id)] == At(m.revision)
    && m.branch in w.clones[m.repository].refs && w.clones[m.repository].refs[m.branch] == m.revision
    && m.repository in w.shards
    && m.graphRef in w.graphs
  }

  function DoVerify(w: World, p: nat, q: Process, i: nat, out: Outcome): (r: World)
    requires q.ContextRun? && i < |q.rec.members|
    ensures r == w.(processes := r.processes)
    ensures OnlyMoves(w, r, p, q)
  {
    if out.Done? && Verified(w, q.id, q.rec.members[i]) &&
       (i + 1 == |q.rec.members| ==> VerifyIdentity(q.id, q.rec.members))
    then Goto(w, p, q.(pc := AfterVerify(q.rec, i + 1)))
    else Stop(w, p, q)
  }

  /** Deleting one member's graph, then its worktree, then its search ref. An artifact that is not
      there is skipped. */
  function DoDropGraph(w: World, p: nat, q: Process, i: nat, out: Outcome): (r: Option<World>)
    requires q.ContextRun? && i < |q.rec.members|
    ensures r.Some? ==> r.value == w.(graphs := r.value.graphs, processes := r.value.processes)
    ensures r.Some? ==> OnlyMoves(w, r.value, p, q)
  {
    var m := q.rec.members[i];
    if q.op.Retry? && m.repository !in w.repositories then Some(Exit(w, p))
    else match out
      case Done => Some(Goto(w.(graphs := w.graphs - {m.graphRef}), p, q.(pc := DropTree(i))))
      case Broken(left) =>
        if m.graphRef in w.graphs || left.None? then Some(Exit(w.(graphs := Leave(w.graphs, m.graphRef, left)), p))
        else None
      case _ => None
  }

  function DoDropTree(w: World, p: nat, q: Process, i: nat, out: Outcome): (r: Option<World>)
    requires q.ContextRun? && i < |q.rec.members|
    ensures r.Some? ==> r.value == w.(trees := r.value.trees, processes := r.value.processes)
    ensures r.Some? ==> OnlyMoves(w, r.value, p, q)
  {
    var m := q.rec.members[i];
    var key := (m.repository, q.id);
    match out
    case Done =>
      var pc := if q.op.Remove? && m.branch != "" then DropRef(i) else AfterDrop(q.op, q.rec, q.order, i + 1);
      Some(Goto(w.(trees := w.trees - {key}), p, q.(pc := pc)))
    case Broken(left) =>
      if key in w.trees || left.None? then Some(Exit(w.(trees := Leave(w.trees, key, left)), p)) else None
    case _ => None
  }

  function DoDropRef(w: World, p: nat, q: Process, i: nat, out: Outcome): (r: Option<World>)
    requires q.ContextRun? && i < |q.rec.members|
    ensures r.Some? ==> r.value == w.(clones := r.value.clones, processes := r.value.processes)
    ensures r.Some? ==> OnlyMoves(w, r.value, p, q)
  {
    var m := q.rec.members[i];
    var next := q.(pc := AfterDrop(q.op, q.rec, q.order, i + 1));
    if out.Broken? then Some(Exit(w, p))
    else if m.repository !in w.clones then Some(Goto(w, p, next))
    else match w.clones[m.repository]
      case Damaged => Some(Exit(w, p))
      case Whole(commits, refs) =>
        Some(Goto(w.(clones := w.clones[m.repository := Whole(commits, refs - {m.branch})]), p, next))
  }

  /** The steps that build or take apart an artifact; none of them writes a record. */
  function ActArtifact(w: World, p: nat, q: Process, out: Outcome): (r: Option<World>)
    requires q.ContextRun?
    ensures r.Some? ==> r.value.records == w.records && r.value.repositories == w.repositories
    ensures r.Some? && !q.pc.Index? ==> r.value.shards == w.shards && (q.pc.DropRef? || r.value.clones == w.clones)
    ensures r.Some? ==> OnlyMoves(w, r.value, p, q)
  {
    match q.pc
    case Prepare(i) => if i < |q.rec.members| then DoPrepare(w, p, q, i, out) else None
    case Index(i, sub) => if i < |q.order| then DoIndex(w, p, q, i, sub, out) else None
    case BuildGraph(i) => if i < |q.rec.members| then DoGraph(w, p, q, i, out) else None
    case Verify(i) => if i < |q.rec.members| then Some(DoVerify(w, p, q, i, out)) else None
    case DropGraph(i) => if i < |q.rec.members| then DoDropGraph(w, p, q, i, out) else None
    case DropTree(i) => if i < |q.rec.members| then DoDropTree(w, p, q, i, out) else None
    case DropRef(i) => if i < |q.rec.members| then DoDropRef(w, p, q, i, out) else None
    case _ => None
  }

  function ActContext(w: World, p: nat, q: Process, out: Outcome): (r: Option<World>)
    requires q.ContextRun?
    ensures r.Some? ==> OnlyMoves(w, r.value, p, q)
    ensures r.Some? ==> r.value.repositories == w.repositories
  {
    match q.pc
    case Locking => None
    case Check => DoCheck(w, p, q, out)
    case Write(s) => Some(DoWrite(w, p, q, s))
    case Delete => Some(Exit(w.(records := w.records - {q.id}), p))
    case _ => ActArtifact(w, p, q, out)
  }

  // ---------------------------------------------------------------- repository operations

  /** The contexts a repository is a member of. */
  function ContextsOf(records: map<string, Record>, r: string): set<string> {
    set id | id in records && r in RepositoriesOf(records[id].members)
  }

  /** Adding clones once into a free directory and records how that went; syncing fetches and
      rewrites the record it read; removing refuses while a context depends on the clone, and
      deletes the clone before the record. */
  function ActRepository(w: World, p: nat, q: Process, out: Outcome): (r: Option<World>)
    requires q.RepositoryRun?
    ensures r.Some? ==> r.value == w.(repositories := r.value.repositories, clones := r.value.clones, processes := r.value.processes)
    ensures r.Some? ==> OnlyMoves(w, r.value, p, q)
    ensures r.Some? && !q.rpc.File? ==> r.value.repositories == w.repositories
  {
    var r := q.name;
    match q.rpc
    case Waiting => None
    case Inspect =>
      (match q.rop
       case Add => if r in w.repositories then Some(Exit(w, p)) else Some(Goto(w, p, q.(rpc := Clone_)))
       case Sync => Some(Goto(w, p, q.(rpc := Clone_)))
       case Forget =>
         if r !in w.repositories || ContextsOf(w.records, r) != {} then Some(Exit(w, p))
         else Some(Goto(w, p, q.(rpc := Clone_))))
    case Clone_ =>
      (match q.rop
       case Add => ActClone(w, p, q, out)
       case Sync => ActFetch(w, p, q, out)
       case Forget =>
         if out.Broken? then Some(Exit(w.(clones := if r in w.clones then w.clones[r := Damaged] else w.clones), p))
         else Some(Goto(w.(clones := w.clones - {r}), p, q.(rpc := File(RepositoryReady)))))
    case File(s) =>
      if q.rop == Forget then Some(Exit(w.(repositories := w.repositories - {r}), p))
      else Some(Exit(w.(repositories := w.repositories[r := s]), p))
  }

  function ActClone(w: World, p: nat, q: Process, out: Outcome): (r: Option<World>)
    requires q.RepositoryRun?
    ensures r.Some? ==> r.value == w.(clones := r.value.clones, processes := r.value.processes)
    ensures r.Some? ==> OnlyMoves(w, r.value, p, q)
  {
    var r := q.name;
    if out.Fetched? && r !in w.clones then
      Some(Goto(w.(clones := w.clones[r := Whole(out.commits, map[])]), p, q.(rpc := File(RepositoryReady))))
    else if out.Broken? then
      var clones := if r in w.clones || out.left.None? then w.clones else w.clones[r := Damaged];
      Some(Goto(w.(clones := clones), p, q.(rpc := File(RepositoryFailed))))
    else None
  }

  function ActFetch(w: World, p: nat, q: Process, out: Outcome): (r: Option<World>)
    requires q.RepositoryRun?
    ensures r.Some? ==> r.value == w.(clones := r.value.clones, processes := r.value.processes)
    ensures r.Some? ==> OnlyMoves(w, r.value, p, q)
  {
    var r := q.name;
    if out.Fetched? && r in w.clones && w.clones[r].Whole? then
      var c := w.clones[r];
      Some(Goto(w.(clones := w.clones[r := c.(commits := c.commits + out.commits)]), p, q.(rpc := File(RepositoryReady))))
    else if out.Broken? then
      // a fetch the caller cancelled leaves the record unwritten
      Some(if out.left.None? then Exit(w, p) else Goto(w, p, q.(rpc := File(RepositoryFailed))))
    else None
  }

  // ---------------------------------------------------------------- the server

  /** The records a server may serve. */
  function ReadyRecords(records: map<string, Record>): map<string, Record> {
    map id | id in records && records[id].state == Ready :: records[id]
  }

  function ActServer(w: World, p: nat, q: Process): (r: Option<World>)
    requires q.Server?
    ensures r.Some? ==> r.value == w.(processes := r.value.processes)
    ensures r.Some? ==> OnlyMoves(w, r.value, p, q)
  {
    match q.spc
    case Queued => None
    case Locked => Some(Goto(w, p, Server(Serving(ReadyRecords(w.records)))))
    case Serving(_) => Some(Exit(w, p))
  }

  // ---------------------------------------------------------------- steps and runs

  const NO_RECORD := Record([], Creating)

  /** Starting an operation. A command that takes the data directory's lock is refused while a
      server holds it; a retry and a removal learn their locks from a record read outside them. */
  function Start(w: World, l: Label): (r: Option<World>)
    requires l.StartContext? || l.StartRepository? || l.StartServer?
    ensures r.Some? ==> r.value == w.(processes := r.value.processes)
  {
    if l.p in w.processes then None
    else match l
      case StartServer(p) => Some(Goto(w, p, Server(Queued)))
      case StartRepository(p, rop, name) =>
        if (rop == Forget && ServerRuns(w)) || (rop == Sync && name !in w.repositories) || !ValidName(name) then None
        else Some(Goto(w, p, RepositoryRun(rop, name, Waiting)))
      case StartContext(p, op, id) =>
        if ServerRuns(w) then None
        else if op.Create? then
          if op.pins != [] && Unrepeated(op.pins) && ValidName(id) && !HasDotDot(id) &&
             forall i :: 0 <= i < |op.pins| ==> ValidName(op.pins[i])
          then
            Some(Goto(w, p, ContextRun(op, id, LockNames(op.pins), 0, NO_RECORD, [], Locking)))
          else None
        else if id in w.records && w.records[id].members != [] then
          Some(Goto(w, p, ContextRun(op, id, LockNames(RepositoriesOf(w.records[id].members)), 0, NO_RECORD, [], Locking)))
        else None
  }

  predicate HasDotDot(id: string) {
    exists i :: 0 <= i < |id| - 1 && id[i] == '.' && id[i + 1] == '.'
  }

  predicate Unrepeated(names: seq<string>) {
    forall i, j :: 0 <= i < j < |names| ==> names[i] != names[j]
  }

  /** Taking the next lock a process waits for, when it is free. */
  function TakeLock(w: World, p: nat, q: Process): (r: Option<World>)
    ensures r.Some? ==> r.value == w.(processes := r.value.processes)
  {
    match q
    case ContextRun(_, _, want, held, _, _, _) =>
      if q.pc.Locking? && held < |want| && LockFree(w, want[held]) then
        Some(Goto(w, p, q.(held := held + 1, pc := if held + 1 == |want| then Check else Locking)))
      else None
    case RepositoryRun(_, name, rpc) =>
      if rpc.Waiting? && LockFree(w, name) then Some(Goto(w, p, q.(rpc := Inspect))) else None
    case Server(spc) =>
      if spc.Queued? && !ManagementRuns(w) && !ServerRuns(w) then Some(Goto(w, p, Server(Locked))) else None
  }

  /** One atomic step of the whole system, or None when it is not possible. */
  function Apply(w: World, l: Label): Option<World> {
    match l
    case StartContext(_, _, _) => Start(w, l)
    case StartRepository(_, _, _) => Start(w, l)
    case StartServer(_) => Start(w, l)
    case Acquire(p) => if p in w.processes then TakeLock(w, p, w.processes[p]) else None
    case Crash(p) => if p in w.processes then Some(Exit(w, p)) else None
    case Act(p, out) =>
      if p !in w.processes then None
      else match w.processes[p]
        case ContextRun(_, _, _, _, _, _, _) => ActContext(w, p, w.processes[p], out)
        case RepositoryRun(_, _, _) => ActRepository(w, p, w.processes[p], out)
        case Server(_) => ActServer(w, p, w.processes[p])
  }
}
