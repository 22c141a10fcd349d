/** The configuration a managed server commits to: built from the READY records, written, and loaded
    back by the same strict check a hand-written file goes through. */
module ServerConfig {
  import opened Options
  import opened Names
  import opened Text
  import opened NameOrder
  import opened Lifecycle
  import opened Config
  import Managed
  import ManagedInvariant
  import ManagedHistory
  import ManagedTheorems

  const REPOS := "/repos/"

  /** Where a repository's clone is; only a usable name has one. */
  function RepositoryDir(root: string, name: string): Option<string> {
    if ValidName(name) then Some(root + REPOS + name) else None
  }

  function ScopeOf(m: Member): Scope { Scope(m.repository, m.branch, m.revision, m.graphRef) }

  function WorkspaceFrom(id: string, members: seq<Member>): (w: Workspace)
    ensures w.id == id && |w.members| == |members|
    ensures forall i :: 0 <= i < |members| ==> w.members[i] == CodeContext(id, ScopeOf(members[i]))
  {
    Workspace(id, seq(|members|, i requires 0 <= i < |members| => CodeContext(id, ScopeOf(members[i]))))
  }

  function WorkspacesFrom(ready: map<string, Record>): map<string, Workspace> {
    map id | id in ready :: WorkspaceFrom(id, ready[id].members)
  }

  function Used(ready: map<string, Record>): set<string> {
    set id, m | id in ready && m in ready[id].members :: m.repository
  }

  /** Exactly the repositories and contexts of the READY records. */
  function Committed(root: string, settings: Settings, ready: map<string, Record>): Configuration {
    Configuration(settings, map r | r in Used(ready) :: root + REPOS + r, WorkspacesFrom(ready))
  }

  /** What is served of a record is its members, field by field. */
  lemma CommittedFields(root: string, settings: Settings, ready: map<string, Record>, id: string, i: nat)
    requires id in ready && i < |ready[id].members|
    ensures var cfg, m := Committed(root, settings, ready), ready[id].members[i];
            && id in cfg.contexts && cfg.contexts[id].id == id && |cfg.contexts[id].members| == |ready[id].members|
            && cfg.contexts[id].members[i].id == id
            && var s := cfg.contexts[id].members[i].scope;
               s.repository == m.repository && s.branch == m.branch && s.revision == m.revision && s.graphRef == m.graphRef
    ensures var cfg, m := Committed(root, settings, ready), ready[id].members[i];
            && m.repository in cfg.repositories && cfg.repositories[m.repository] == root + "/repos/" + m.repository
            && cfg.settings == settings && cfg.contexts.Keys == ready.Keys
  {
    assert ready[id].members[i] in ready[id].members;
  }

  ghost predicate AllNamed(ready: map<string, Record>) {
    forall r :: r in Used(ready) ==> ValidName(r)
  }

  datatype Serving = Unnameable | NothingReady(cfg: Configuration) | Serve(loading: Loading)

  /** The ids of the records the query plane may serve, in order. */
  method ReadyContexts(records: map<string, Record>) returns (ready: seq<string>)
    ensures Increasing(ready)
    ensures forall id :: id in ready <==> id in Managed.ReadyRecords(records)
  {
    hide Less;
    var order := SortedKeys(records.Keys);
    ready := [];
    for i := 0 to |order|
      invariant forall id :: id in ready <==> id in order[..i] && id in records && records[id].state == Ready
      invariant Increasing(ready)
    {
      assert order[i] in records.Keys;
      assert order[..i + 1] == order[..i] + [order[i]];
      if records[order[i]].state == Ready {
        forall k | 0 <= k < |ready| ensures Less(ready[k], order[i]) {
          assert ready[k] in ready;
          var j :| 0 <= j < i && order[..i][j] == ready[k];
        }
        ready := ready + [order[i]];
      }
    }
    assert order[..|order|] == order;
    forall id ensures id in ready <==> id in Managed.ReadyRecords(records) {
      assert id in records ==> id in records.Keys;
    }
  }

  ghost predicate Covers(repositories: map<string, string>, root: string, used: set<string>) {
    repositories.Keys == used && forall r :: r in repositories ==> ValidName(r) && repositories[r] == root + REPOS + r
  }

  /** The repositories of the members seen so far. */
  ghost function UsedIn(members: seq<Member>): set<string> { set m | m in members :: m.repository }

  method AddMembers(root: string, id: string, members: seq<Member>, before: map<string, string>)
    returns (ok: bool, repositories: map<string, string>, scopes: seq<CodeContext>)
    requires Covers(before, root, before.Keys)
    ensures ok <==> forall m :: m in members ==> ValidName(m.repository)
    ensures ok ==> Covers(repositories, root, before.Keys + UsedIn(members)) && scopes == WorkspaceFrom(id, members).members
  {
    hide ValidName, Covers, UsedIn;
    repositories, scopes := before, [];
    NoMembersYet(root, before, members);
    for j := 0 to |members|
      invariant Covers(repositories, root, before.Keys + UsedIn(members[..j]))
      invariant forall m :: m in members[..j] ==> ValidName(m.repository)
      invariant |scopes| == j && forall k :: 0 <= k < j ==> scopes[k] == CodeContext(id, ScopeOf(members[k]))
    {
      var member := members[j];
      var path := RepositoryDir(root, member.repository);
      if path.None? {
        assert member in members;
        return false, repositories, scopes;
      }
      OneMemberMore(root, before, repositories, members, j);
      repositories := repositories[member.repository := path.value];
      scopes := scopes + [CodeContext(id, Scope(member.repository, member.branch, member.revision, member.graphRef))];
    }
    assert members[..|members|] == members;
    assert scopes == WorkspaceFrom(id, members).members;
    ok := true;
  }

  lemma NoMembersYet(root: string, before: map<string, string>, members: seq<Member>)
    requires Covers(before, root, before.Keys)
    ensures Covers(before, root, before.Keys + UsedIn(members[..0]))
  {
    assert before.Keys + UsedIn(members[..0]) == before.Keys;
  }

  lemma OneMemberMore(root: string, before: map<string, string>, repositories: map<string, string>, members: seq<Member>, j: nat)
    requires j < |members| && Covers(repositories, root, before.Keys + UsedIn(members[..j])) && ValidName(members[j].repository)
    ensures var name := members[j].repository;
            Covers(repositories[name := root + REPOS + name], root, before.Keys + UsedIn(members[..j + 1]))
    ensures forall m :: m in members[..j + 1] <==> m in members[..j] || m == members[j]
  {
    hide ValidName;
    assert members[..j + 1] == members[..j] + [members[j]];
    UsedInNext(members[..j], members[j]);
  }

  lemma UsedInNext(members: seq<Member>, m: Member)
    ensures UsedIn(members + [m]) == UsedIn(members) + {m.repository}
  {
    assert forall n :: n in members + [m] <==> n in members || n == m;
  }

  /** Builds the configuration, writes it, and serves what loading it gives; with nothing READY
      there is nothing to load. */
  method ManagedConfig(root: string, settings: Settings, records: map<string, Record>) returns (result: Serving)
    ensures var ready := Managed.ReadyRecords(records);
            && (result.Unnameable? <==> !AllNamed(ready))
            && (result.NothingReady? ==> ready == map[] && result.cfg == Committed(root, settings, ready))
            && (AllNamed(ready) && ready != map[] ==> result.Serve?)
            && (result.Serve? && result.loading.Fine? ==> result.loading.cfg == Committed(root, settings, ready))
            && (result.Serve? ==> (result.loading.Fine? <==> Acceptable(Committed(root, settings, ready))))
  {
    hide Acceptable, ValidName, Increasing, FiledUnderKeys, Spelled, Loaded, Covers, UsedBy, UsedIn, AllNamed;
    ghost var all := Managed.ReadyRecords(records);
    var ready := ReadyContexts(records);
    var repositories: map<string, string> := map[];
    var contexts: map<string, Workspace> := map[];
    assert ready[..0] == [];
    NobodyYet(root, all);
    for i := 0 to |ready|
      invariant Covers(repositories, root, UsedBy(all, ready[..i]))
      invariant contexts.Keys == set id | id in ready[..i]
      invariant forall id :: id in contexts ==> id in all && contexts[id] == WorkspaceFrom(id, all[id].members)
    {
      var id := ready[i];
      assert id in ready;
      CoversItself(repositories, root, UsedBy(all, ready[..i]));
      var ok, paths, members := AddMembers(root, id, records[id].members, repositories);
      if !ok {
        Misnamed(all, id);
        return Unnameable;
      }
      assert ready[..i + 1] == ready[..i] + [id];
      UsedNext(all, ready[..i], id);
      repositories := paths;
      contexts := contexts[id := Workspace(id, members)];
    }
    assert ready[..|ready|] == ready;
    UsedAll(all, ready);
    AllCovered(root, settings, all, repositories);
    var cfg := Configuration(settings, repositories, contexts);
    assert contexts == WorkspacesFrom(all);
    assert cfg == Committed(root, settings, all);
    var body := Marshal(cfg);
    if |contexts| == 0 {
      assert all == map[] by { assert WorkspacesFrom(all).Keys == all.Keys; }
      return NothingReady(cfg);
    }
    var loading := Load(body);
    CommittedFiled(root, settings, all);
    MarshalLoad(cfg);
    LoadedMarshalled(cfg);
    return Serve(loading);
  }

  lemma LoadedMarshalled(cfg: Configuration)
    requires FiledUnderKeys(cfg.contexts)
    ensures Loaded(Spelled(cfg)).Some? ==> Acceptable(cfg)
  {
    hide Acceptable, Meant, Spelling;
    var file := Spelled(cfg);
    if Loaded(file).Some? {
      assert Acceptable(MeantBy(file));
      LoadedSame(cfg);
    }
  }

  /** A written configuration that loads is the one written: an only member that says nothing would
      load as no member at all, and be refused. */
  lemma LoadedSame(cfg: Configuration)
    requires FiledUnderKeys(cfg.contexts) && Acceptable(MeantBy(Spelled(cfg)))
    ensures MeantBy(Spelled(cfg)) == cfg
  {
    hide Meant, Spelling, GoodContext, GraphsAgree;
    var back := MeantBy(Spelled(cfg));
    forall id | id in cfg.contexts ensures back.contexts[id] == cfg.contexts[id] {
      assert back.contexts[id] == Meant(id, Spelling(cfg.contexts[id]));
      assert GoodContext(back.repositories, id, back.contexts[id]);
      GoodComesBack(back.repositories, id, cfg.contexts[id]);
    }
    assert back.contexts == cfg.contexts;
  }

  lemma GoodComesBack(repositories: map<string, string>, id: string, w: Workspace)
    requires FiledUnder(id, w) && GoodContext(repositories, id, Meant(id, Spelling(w)))
    ensures Meant(id, Spelling(w)) == w
  {
    SpellingMeans(id, w);
  }

  lemma Misnamed(ready: map<string, Record>, id: string)
    requires id in ready && exists m :: m in ready[id].members && !ValidName(m.repository)
    ensures !AllNamed(ready)
  {
    hide ValidName;
    var m :| m in ready[id].members && !ValidName(m.repository);
    assert m.repository in Used(ready);
  }

  ghost function UsedBy(ready: map<string, Record>, ids: seq<string>): set<string> {
    set id, m | id in ids && id in ready && m in ready[id].members :: m.repository
  }

  lemma UsedNext(ready: map<string, Record>, ids: seq<string>, id: string)
    requires id in ready
    ensures UsedBy(ready, ids + [id]) == UsedBy(ready, ids) + UsedIn(ready[id].members)
  {
    forall r ensures r in UsedBy(ready, ids + [id]) <==> r in UsedBy(ready, ids) + UsedIn(ready[id].members) {
      if r in UsedIn(ready[id].members) {
        var m :| m in ready[id].members && m.repository == r;
        assert id in ids + [id];
      }
    }
  }

  lemma NobodyYet(root: string, ready: map<string, Record>)
    ensures Covers(map[], root, UsedBy(ready, []))
  {}

  lemma CoversItself(repositories: map<string, string>, root: string, used: set<string>)
    requires Covers(repositories, root, used)
    ensures Covers(repositories, root, repositories.Keys) && repositories.Keys == used
  {}

  lemma AllCovered(root: string, settings: Settings, ready: map<string, Record>, repositories: map<string, string>)
    requires Covers(repositories, root, Used(ready))
    ensures AllNamed(ready) && repositories == Committed(root, settings, ready).repositories
  {
    hide ValidName;
  }

  lemma UsedAll(ready: map<string, Record>, ids: seq<string>)
    requires forall id :: id in ids <==> id in ready
    ensures UsedBy(ready, ids) == Used(ready)
  {}

  lemma CommittedFiled(root: string, settings: Settings, ready: map<string, Record>)
    ensures FiledUnderKeys(Committed(root, settings, ready).contexts)
  {
    var contexts := Committed(root, settings, ready).contexts;
    forall id | id in contexts ensures FiledUnder(id, contexts[id]) {
      assert contexts[id] == WorkspaceFrom(id, ready[id].members);
    }
  }

  // ---------------------------------------------------------------- which records are served

  ghost predicate DistinctRepositories(members: seq<Member>) {
    forall i, j :: 0 <= i < j < |members| ==> members[i].repository != members[j].repository
  }

  /** A record as the commands write it. */
  ghost predicate Sound(id: string, members: seq<Member>) {
    && ValidName(id) && members != [] && DistinctRepositories(members) && VerifyIdentity(id, members)
    && forall m :: m in members ==> ValidName(m.repository) && !Blank(m.revision)
  }

  ghost predicate AllSound(ready: map<string, Record>) {
    forall id :: id in ready ==> Sound(id, ready[id].members)
  }

  /** No two repositories share a graph name. */
  ghost predicate GraphsApart(ready: map<string, Record>) {
    forall c, d, m, n ::
      c in ready && d in ready && m in ready[c].members && n in ready[d].members && m.graphRef == n.graphRef ==>
        m.repository == n.repository
  }

  lemma NotBlank(s: string, i: nat)
    requires i < |s| && !IsSpace(s[i])
    ensures !Blank(s)
  {}

  lemma NameNotBlank(name: string)
    requires ValidName(name)
    ensures !Blank(name)
  {
    NotBlank(name, 0);
  }

  lemma SoundMember(repositories: map<string, string>, id: string, members: seq<Member>, i: nat)
    requires Sound(id, members) && i < |members| && members[i].repository in repositories
    ensures GoodMember(repositories, CodeContext(id, ScopeOf(members[i])))
  {
    var m := members[i];
    assert m in members;
    assert Identified(id, members, i);
    hide Blank, ValidName;
    NameNotBlank(m.repository);
    assert m.branch[0] == 'v' && m.graphRef[0] == 'v';
    NotBlank(m.branch, 0);
    NotBlank(m.graphRef, 0);
  }

  lemma SoundContext(repositories: map<string, string>, id: string, members: seq<Member>)
    requires Sound(id, members) && forall m :: m in members ==> m.repository in repositories
    ensures GoodContext(repositories, id, WorkspaceFrom(id, members))
  {
    forall i | 0 <= i < |members| ensures GoodMember(repositories, CodeContext(id, ScopeOf(members[i]))) {
      assert members[i] in members;
      SoundMember(repositories, id, members, i);
    }
    NameNotBlank(id);
    hide GoodMember, ValidName, VerifyIdentity, Blank;
  }

  /** Sharing a graph within one repository is being the same member of the same context. */
  lemma SameRepositorySharesNothing(ready: map<string, Record>, c: string, d: string, m: Member, n: Member)
    requires AllSound(ready) && c in ready && d in ready && m in ready[c].members && n in ready[d].members
    requires m.graphRef == n.graphRef && m.repository == n.repository
    ensures c == d && m == n
  {
    hide ValidName, GraphRef, SearchRef, Blank;
    assert Sound(c, ready[c].members) && Sound(d, ready[d].members);
    var i :| 0 <= i < |ready[c].members| && ready[c].members[i] == m;
    var j :| 0 <= j < |ready[d].members| && ready[d].members[j] == n;
    assert Identified(c, ready[c].members, i) && Identified(d, ready[d].members, j);
    GraphRefDetermines(m.repository, c, m.revision, d, n.revision);
  }

  lemma OneScope(ready: map<string, Record>, id: string, x: CodeContext)
    requires id in ready && x in WorkspaceFrom(id, ready[id].members).members
    ensures exists m :: m in ready[id].members && x == CodeContext(id, ScopeOf(m))
  {
    var w := WorkspaceFrom(id, ready[id].members);
    var i :| 0 <= i < |w.members| && w.members[i] == x;
    assert ready[id].members[i] in ready[id].members;
  }

  lemma HasScope(ready: map<string, Record>, id: string, m: Member)
    requires id in ready && m in ready[id].members
    ensures CodeContext(id, ScopeOf(m)) in WorkspaceFrom(id, ready[id].members).members
  {
    var i :| 0 <= i < |ready[id].members| && ready[id].members[i] == m;
    assert WorkspaceFrom(id, ready[id].members).members[i] == CodeContext(id, ScopeOf(m));
  }

  lemma ScopesAgree(ready: map<string, Record>, c: string, d: string, x: CodeContext, y: CodeContext)
    requires AllSound(ready) && GraphsApart(ready) && c in ready && d in ready
    requires x in WorkspaceFrom(c, ready[c].members).members && y in WorkspaceFrom(d, ready[d].members).members
    ensures Agree(x, y)
  {
    hide AllSound, WorkspaceFrom;
    OneScope(ready, c, x);
    OneScope(ready, d, y);
    var m :| m in ready[c].members && x == CodeContext(c, ScopeOf(m));
    var n :| n in ready[d].members && y == CodeContext(d, ScopeOf(n));
    if m.graphRef == n.graphRef {
      SameRepositorySharesNothing(ready, c, d, m, n);
    }
  }

  lemma CommittedAgrees(ready: map<string, Record>)
    requires AllSound(ready)
    ensures GraphsAgree(WorkspacesFrom(ready), ready.Keys) <==> GraphsApart(ready)
  {
    hide AllSound, WorkspaceFrom, GraphsApart;
    var contexts := WorkspacesFrom(ready);
    if GraphsApart(ready) {
      forall c, d, x, y | c in ready && d in ready && x in contexts[c].members && y in contexts[d].members ensures Agree(x, y) {
        ScopesAgree(ready, c, d, x, y);
      }
    }
    if GraphsAgree(contexts, ready.Keys) {
      AgreedApart(ready);
    }
  }

  lemma AgreedApart(ready: map<string, Record>)
    requires GraphsAgree(WorkspacesFrom(ready), ready.Keys)
    ensures GraphsApart(ready)
  {
    hide WorkspaceFrom, Agree, GraphsAgree;
    var contexts := WorkspacesFrom(ready);
    forall c, d, m, n | c in ready && d in ready && m in ready[c].members && n in ready[d].members && m.graphRef == n.graphRef
      ensures m.repository == n.repository
    {
      HasScope(ready, c, m);
      HasScope(ready, d, n);
      AgreeAt(contexts, ready.Keys, c, d, CodeContext(c, ScopeOf(m)), CodeContext(d, ScopeOf(n)));
      SameGraphSameRepository(c, d, m, n);
    }
  }

  lemma AgreeAt(contexts: map<string, Workspace>, ids: set<string>, c: string, d: string, x: CodeContext, y: CodeContext)
    requires GraphsAgree(contexts, ids) && c in ids && d in ids && c in contexts && d in contexts
    requires x in contexts[c].members && y in contexts[d].members
    ensures Agree(x, y)
  {}

  lemma SameGraphSameRepository(c: string, d: string, m: Member, n: Member)
    requires Agree(CodeContext(c, ScopeOf(m)), CodeContext(d, ScopeOf(n)))
    ensures m.graphRef == n.graphRef ==> m.repository == n.repository
  {}

  /** The configuration of READY records that pass the identity check is accepted exactly when no
      two repositories share a graph name. */
  lemma ServedIffGraphsApart(root: string, settings: Settings, ready: map<string, Record>)
    requires ready != map[] && AllSound(ready)
    ensures AllNamed(ready)
    ensures Acceptable(Committed(root, settings, ready)) <==> GraphsApart(ready)
  {
    var cfg := Committed(root, settings, ready);
    hide WorkspaceFrom, GoodContext, Blank, ValidName, VerifyIdentity, GraphsAgree, GraphsApart, Agree;
    forall r | r in Used(ready) ensures ValidName(r) && GoodRepository(cfg.repositories, r) {
      var id, m :| id in ready && m in ready[id].members && m.repository == r;
      assert Sound(id, ready[id].members);
      PathNotBlank(root, r);
    }
    forall id | id in cfg.contexts ensures GoodContext(cfg.repositories, id, cfg.contexts[id]) {
      assert Sound(id, ready[id].members);
      forall m | m in ready[id].members ensures m.repository in cfg.repositories { assert m.repository in Used(ready); }
      SoundContext(cfg.repositories, id, ready[id].members);
    }
    CommittedAgrees(ready);
    assert cfg.contexts.Keys == ready.Keys;
    assert cfg.contexts != map[] by { var id :| id in ready; assert id in cfg.contexts; }
  }

  lemma PathNotBlank(root: string, name: string)
    requires ValidName(name)
    ensures !Blank(name) && !Blank(root + REPOS + name)
  {
    NameNotBlank(name);
    assert (root + REPOS + name)[|root|] == '/';
    NotBlank(root + REPOS + name, |root|);
  }

  // ---------------------------------------------------------------- every reachable server

  /** Names that were checked when they came in stay checked: no record, repository or running
      operation carries another. */
  ghost predicate Named(w: Managed.World) {
    && (forall id :: id in w.records ==> ValidName(id) && !Managed.HasDotDot(id))
    && (forall r :: r in w.repositories ==> ValidName(r))
    && (forall p :: p in w.processes ==> NamedProcess(w.processes[p]))
  }

  ghost predicate NamedProcess(q: Managed.Process) {
    (q.ContextRun? ==> ValidName(q.id) && !Managed.HasDotDot(q.id)) && (q.RepositoryRun? ==> ValidName(q.name))
  }

  /** The tables of names: a context operation files its own id at most, a repository operation its own
      repository. */
  lemma TablesAfter(w: Managed.World, p: nat, q: Managed.Process, out: Managed.Outcome)
    ensures q.ContextRun? && Managed.ActContext(w, p, q, out).Some? ==>
              Managed.ActContext(w, p, q, out).value.records.Keys <= w.records.Keys + {q.id}
    ensures q.RepositoryRun? && Managed.ActRepository(w, p, q, out).Some? ==>
              Managed.ActRepository(w, p, q, out).value.repositories.Keys <= w.repositories.Keys + {q.name}
  {
    if q.ContextRun? && Managed.ActContext(w, p, q, out).Some? {
      ManagedHistory.RecordsAfter(w, p, q, out);
    }
    hide Managed.ActContext;
    if q.RepositoryRun? && !q.rpc.File? {
      hide Managed.ActRepository;
    }
  }

  lemma NamedAct(w: Managed.World, p: nat, out: Managed.Outcome)
    requires Named(w) && p in w.processes && Managed.Apply(w, Managed.Act(p, out)).Some?
    ensures Named(Managed.Apply(w, Managed.Act(p, out)).value)
  {
    hide ValidName, Managed.HasDotDot, Managed.ActContext, Managed.ActRepository, Managed.ActServer;
    assert NamedProcess(w.processes[p]);
    TablesAfter(w, p, w.processes[p], out);
  }

  lemma NamedStep(w: Managed.World, l: Managed.Label)
    requires Named(w) && Managed.Apply(w, l).Some?
    ensures Named(Managed.Apply(w, l).value)
  {
    hide ValidName, Managed.HasDotDot, LockNames, RepositoriesOf, Managed.LockFree, Managed.ManagementRuns,
      Managed.ServerRuns, Managed.ActContext, Managed.ActRepository, Managed.ActServer;
    if l.Act? {
      NamedAct(w, l.p, l.out);
    } else if l.Acquire? {
      assert NamedProcess(w.processes[l.p]);
    } else if l.StartContext? && !l.op.Create? && Managed.Start(w, l).Some? {
      assert ValidName(l.id);
    }
  }

  lemma {:induction false} NamedRun(w: Managed.World, labels: seq<Managed.Label>)
    requires Named(w) && ManagedTheorems.Run(w, labels).Some?
    ensures Named(ManagedTheorems.Run(w, labels).value)
    decreases |labels|
  {
    hide Named, Managed.Apply;
    if labels != [] {
      NamedStep(w, labels[0]);
      NamedRun(Managed.Apply(w, labels[0]).value, labels[1..]);
    }
  }

  /** Whatever has happened in the data directory, a server that gets its locks is given exactly the
      READY contexts: the generated configuration is never refused. Git's revisions are hexadecimal,
      so not blank; the rest follows from what every reachable state satisfies. */
  lemma ReachableServed(home: ManagedInvariant.Homes, w: Managed.World, p: nat, snapshot: map<string, Record>, root: string, settings: Settings)
    requires ManagedTheorems.Reachable(home, w)
    requires p in w.processes && w.processes[p] == Managed.Server(Managed.Serving(snapshot))
    requires forall id, m :: id in snapshot && m in snapshot[id].members ==> !Blank(m.revision)
    ensures AllNamed(snapshot)
    ensures snapshot != map[] ==> Acceptable(Committed(root, settings, snapshot))
  {
    hide ManagedInvariant.Inv, Named, ValidName, Acceptable, Blank, Sound, GraphsApart;
    ManagedTheorems.SnapshotSafe(home, w, p, snapshot);
    ReachableNamed(home, w);
    forall id | id in snapshot ensures Sound(id, snapshot[id].members) {
      RecordSound(home, w, id);
    }
    SnapshotApart(home, w, snapshot);
    if snapshot != map[] {
      ServedIffGraphsApart(root, settings, snapshot);
    }
  }

  lemma DotDotExactly(id: string)
    ensures Managed.HasDotDot(id) <==> Contains(id, "..")
  {
    if Managed.HasDotDot(id) {
      var i :| 0 <= i < |id| - 1 && id[i] == '.' && id[i + 1] == '.';
      assert id[i..][..2] == "..";
      assert HasPrefix(id[i..], "..");
    }
    if Contains(id, "..") {
      var i :| 0 <= i <= |id| && HasPrefix(id[i..], "..");
      assert id[i] == id[i..][0] && id[i + 1] == id[i..][1];
    }
  }

  /** In every reachable state every recorded context and every managed repository has a valid name - no
      name that leads out of the directory it stands in - and no context's has two dots in a row, which
      git would refuse in a ref. */
  lemma ReachableNamed(home: ManagedInvariant.Homes, w: Managed.World)
    requires ManagedTheorems.Reachable(home, w)
    ensures Named(w)
    ensures forall id :: id in w.records ==> ValidName(id) && '/' !in id && id != "." && !Contains(id, "..")
    ensures forall r :: r in w.repositories ==> ValidName(r) && '/' !in r && r != "." && r != ".."
  {
    hide Managed.Apply, ManagedInvariant.Disciplined;
    var labels :| ManagedTheorems.DisciplinedRun(home, Managed.EMPTY, labels) && ManagedTheorems.Run(Managed.EMPTY, labels).Some?
      && ManagedTheorems.Run(Managed.EMPTY, labels).value == w;
    NamedRun(Managed.EMPTY, labels);
    forall id | id in w.records ensures !Contains(id, "..") {
      DotDotExactly(id);
    }
  }

  lemma RecordSound(home: ManagedInvariant.Homes, w: Managed.World, id: string)
    requires ManagedTheorems.Reachable(home, w) && Named(w) && id in w.records
    requires forall m :: m in w.records[id].members ==> !Blank(m.revision)
    ensures Sound(id, w.records[id].members)
  {
    hide ValidName, Blank, VerifyIdentity, ManagedInvariant.PcOk;
    ManagedTheorems.ReachableInv(home, w);
    assert ManagedInvariant.WellFormed(home, id, w.records[id].members);
    forall m | m in w.records[id].members ensures ValidName(m.repository) {
      ManagedTheorems.NoStrandedContext(home, w, id, m);
    }
  }

  lemma SnapshotApart(home: ManagedInvariant.Homes, w: Managed.World, snapshot: map<string, Record>)
    requires ManagedTheorems.Reachable(home, w)
    requires forall id :: id in snapshot ==> id in w.records && w.records[id] == snapshot[id]
    ensures GraphsApart(snapshot)
  {
    hide ValidName, Blank, VerifyIdentity;
    ManagedTheorems.ReachableInv(home, w);
    forall c, d, m, n | c in snapshot && d in snapshot && m in snapshot[c].members && n in snapshot[d].members && m.graphRef == n.graphRef
      ensures m.repository == n.repository
    {
      assert ManagedInvariant.NamesApart(w.records);
      assert c != d ==> ManagedInvariant.Apart(m, n);
      if c == d {
        assert ManagedInvariant.WellFormed(home, c, w.records[c].members);
      }
    }
  }
}
