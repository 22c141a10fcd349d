/** The configuration file: its two spellings of a context, and the check it has to pass. */
module Config {
  import opened Options
  import opened NameOrder
  import opened Text

  /** What a context says about one repository; the id is the key it is filed under. */
  datatype Scope = Scope(repository: string, branch: string, revision: string, graphRef: string)

  const NO_SCOPE := Scope("", "", "", "")

  datatype CodeContext = CodeContext(id: string, scope: Scope)

  datatype Workspace = Workspace(id: string, members: seq<CodeContext>)

  datatype Settings = Settings(address: string, zoektUrl: string, cbmCommand: string)

  /** A configuration: where each repository's clone is, and every context as a workspace. */
  datatype Configuration = Configuration(
    settings: Settings, repositories: map<string, string>, contexts: map<string, Workspace>)

  datatype Code = InvalidArgument | RepositoryNotFound

  datatype Place = InRepository(name: string) | NoContexts | InContext(id: string)

  datatype Refusal = Refusal(code: Code, place: Place)

  // ---------------------------------------------------------------- what is acceptable

  predicate Filled(s: Scope) {
    !Blank(s.repository) && !Blank(s.branch) && !Blank(s.revision) && !Blank(s.graphRef)
  }

  predicate GoodMember(repositories: map<string, string>, m: CodeContext) {
    Filled(m.scope) && m.scope.repository in repositories
  }

  predicate GoodMembers(repositories: map<string, string>, members: seq<CodeContext>) {
    && (forall i :: 0 <= i < |members| ==> GoodMember(repositories, members[i]))
    && (forall i, j :: 0 <= i < j < |members| ==> members[i].scope.repository != members[j].scope.repository)
  }

  predicate GoodContext(repositories: map<string, string>, id: string, w: Workspace) {
    !Blank(id) && w.members != [] && GoodMembers(repositories, w.members)
  }

  /** One graph is one repository at one revision. */
  predicate Agree(m: CodeContext, n: CodeContext) {
    m.scope.graphRef == n.scope.graphRef ==> m.scope.repository == n.scope.repository && m.scope.revision == n.scope.revision
  }

  ghost predicate GraphsAgree(contexts: map<string, Workspace>, ids: set<string>) {
    forall c, d, m, n ::
      c in ids && d in ids && c in contexts && d in contexts && m in contexts[c].members && n in contexts[d].members ==> Agree(m, n)
  }

  /** These contexts are in order, each by itself and all of them together. */
  ghost predicate Orderly(cfg: Configuration, ids: set<string>) {
    && (forall id :: id in ids && id in cfg.contexts ==> GoodContext(cfg.repositories, id, cfg.contexts[id]))
    && GraphsAgree(cfg.contexts, ids)
  }

  predicate GoodRepository(repositories: map<string, string>, name: string) {
    name in repositories ==> !Blank(name) && !Blank(repositories[name])
  }

  ghost predicate GoodRepositories(repositories: map<string, string>) {
    forall name :: name in repositories ==> GoodRepository(repositories, name)
  }

  /** What a configuration has to satisfy, without any order of looking at it. */
  ghost predicate Acceptable(cfg: Configuration) {
    GoodRepositories(cfg.repositories) && cfg.contexts != map[] && Orderly(cfg, cfg.contexts.Keys)
  }

  ghost function Before(keys: set<string>, id: string): set<string> {
    set k | k in keys && Less(k, id)
  }

  /** The context at which the check stops: everything sorting before it is in order, and it is not. */
  ghost predicate FirstOffence(cfg: Configuration, id: string) {
    && id in cfg.contexts
    && Orderly(cfg, Before(cfg.contexts.Keys, id))
    && !Orderly(cfg, Before(cfg.contexts.Keys, id) + {id})
  }

  /** The first thing wrong with a context is that this member, whose fields are filled, names a
      repository that is not declared: the members before it are in order, and agree with each other
      and with what was met before. */
  ghost predicate UndeclaredAt(repositories: map<string, string>, id: string, members: seq<CodeContext>, met: seq<CodeContext>, j: nat) {
    && !Blank(id) && j < |members|
    && GoodMembers(repositories, members[..j]) && AllAgree(met + members[..j])
    && Filled(members[j].scope) && members[j].scope.repository !in repositories
  }

  /** A member of a context that sorts before, or one of the first j of the context itself. */
  ghost predicate Seen(cfg: Configuration, id: string, j: nat, m: CodeContext)
    requires id in cfg.contexts && j <= |cfg.contexts[id].members|
  {
    m in cfg.contexts[id].members[..j] || exists k :: k in Before(cfg.contexts.Keys, id) && m in cfg.contexts[k].members
  }

  ghost predicate Undeclared(cfg: Configuration, id: string, j: nat) {
    && id in cfg.contexts && !Blank(id) && j < |cfg.contexts[id].members|
    && GoodMembers(cfg.repositories, cfg.contexts[id].members[..j])
    && (forall m, n :: Seen(cfg, id, j, m) && Seen(cfg, id, j, n) ==> Agree(m, n))
    && var s := cfg.contexts[id].members[j].scope;
       Filled(s) && s.repository !in cfg.repositories
  }

  ghost predicate UndeclaredIn(cfg: Configuration, id: string) { exists j :: Undeclared(cfg, id, j) }

  /** Field by field: repositories with a name and a path; contexts with a name and members; members
      with all four fields, each of a declared repository of its own; and no graph that two members
      give two repositories or two revisions. */
  lemma AcceptableExactly(cfg: Configuration)
    ensures Acceptable(cfg) <==>
              && (forall name :: name in cfg.repositories ==> !Blank(name) && !Blank(cfg.repositories[name]))
              && cfg.contexts != map[]
              && (forall id :: id in cfg.contexts ==>
                    !Blank(id) && cfg.contexts[id].members != [] && FilledAndDeclared(cfg, id) && Distinct(cfg.contexts[id].members))
              && OneGraphOneRevision(cfg.contexts)
  {
    forall id | id in cfg.contexts
      ensures GoodContext(cfg.repositories, id, cfg.contexts[id]) <==>
                !Blank(id) && cfg.contexts[id].members != [] && FilledAndDeclared(cfg, id) && Distinct(cfg.contexts[id].members)
    {
      GoodContextExactly(cfg, id);
    }
    GraphsExactly(cfg.contexts);
    RepositoriesExactly(cfg.repositories);
    hide Blank, GoodContext, GraphsAgree, GoodRepositories, FilledAndDeclared, Distinct, OneGraphOneRevision;
  }

  ghost predicate FilledAndDeclared(cfg: Configuration, id: string)
    requires id in cfg.contexts
  {
    forall m :: m in cfg.contexts[id].members ==>
      && !Blank(m.scope.repository) && !Blank(m.scope.branch) && !Blank(m.scope.revision) && !Blank(m.scope.graphRef)
      && m.scope.repository in cfg.repositories
  }

  ghost predicate Distinct(members: seq<CodeContext>) {
    forall i, j :: 0 <= i < j < |members| ==> members[i].scope.repository != members[j].scope.repository
  }

  lemma GoodContextExactly(cfg: Configuration, id: string)
    requires id in cfg.contexts
    ensures GoodContext(cfg.repositories, id, cfg.contexts[id]) <==>
              !Blank(id) && cfg.contexts[id].members != [] && FilledAndDeclared(cfg, id) && Distinct(cfg.contexts[id].members)
  {
    hide Blank;
    var members := cfg.contexts[id].members;
    if GoodMembers(cfg.repositories, members) {
      forall m | m in members ensures GoodMember(cfg.repositories, m) {
        var i :| 0 <= i < |members| && members[i] == m;
      }
    }
    if FilledAndDeclared(cfg, id) {
      forall i | 0 <= i < |members| ensures GoodMember(cfg.repositories, members[i]) {
        assert members[i] in members;
      }
    }
  }

  ghost predicate OneGraphOneRevision(contexts: map<string, Workspace>) {
    forall c, d, m, n :: c in contexts && d in contexts && m in contexts[c].members && n in contexts[d].members ==>
      m.scope.graphRef == n.scope.graphRef ==> m.scope.repository == n.scope.repository && m.scope.revision == n.scope.revision
  }

  lemma GraphsExactly(contexts: map<string, Workspace>)
    ensures GraphsAgree(contexts, contexts.Keys) <==> OneGraphOneRevision(contexts)
  {
    if GraphsAgree(contexts, contexts.Keys) {
      forall c, d, m, n | c in contexts && d in contexts && m in contexts[c].members && n in contexts[d].members
        ensures m.scope.graphRef == n.scope.graphRef ==> m.scope.repository == n.scope.repository && m.scope.revision == n.scope.revision
      {
        assert c in contexts.Keys && d in contexts.Keys && Agree(m, n);
      }
    }
  }

  lemma RepositoriesExactly(repositories: map<string, string>)
    ensures GoodRepositories(repositories) <==>
              forall name :: name in repositories ==> !Blank(name) && !Blank(repositories[name])
  {
    hide Blank;
    if GoodRepositories(repositories) {
      forall name | name in repositories ensures !Blank(name) && !Blank(repositories[name]) {
        assert GoodRepository(repositories, name);
      }
    }
  }

  ghost predicate Names(cfg: Configuration, refusal: Refusal) {
    match refusal.place
    case InRepository(name) => name in cfg.repositories && !GoodRepository(cfg.repositories, name)
    case NoContexts => GoodRepositories(cfg.repositories) && cfg.contexts == map[]
    case InContext(id) => GoodRepositories(cfg.repositories) && FirstOffence(cfg, id)
  }

  // ---------------------------------------------------------------- the check as it runs

  lemma BeforeAt(order: seq<string>, keys: set<string>, i: nat)
    requires Increasing(order) && (forall k :: k in order <==> k in keys) && i < |order|
    ensures Before(keys, order[i]) == set k | k in order[..i]
  {
    forall k ensures k in Before(keys, order[i]) <==> k in order[..i] {
      if k in keys && Less(k, order[i]) {
        var j :| 0 <= j < |order| && order[j] == k;
        LessIrreflexive(k);
        if i < j { LessTransitive(k, order[i], k); }
        assert order[..i][j] == k;
      }
      if k in order[..i] {
        var j :| 0 <= j < i && order[j] == k;
      }
    }
  }

  /** The members met so far, in the order they are met. */
  ghost function Met(contexts: map<string, Workspace>, order: seq<string>): seq<CodeContext>
    requires forall k :: k in order ==> k in contexts
  {
    if order == [] then [] else Met(contexts, order[..|order| - 1]) + contexts[order[|order| - 1]].members
  }

  lemma {:induction false} MetMembers(contexts: map<string, Workspace>, order: seq<string>, m: CodeContext)
    requires forall k :: k in order ==> k in contexts
    ensures m in Met(contexts, order) <==> exists k :: k in order && m in contexts[k].members
  {
    if order != [] {
      var last := |order| - 1;
      MetMembers(contexts, order[..last], m);
      assert order == order[..last] + [order[last]];
    }
  }

  ghost predicate AllAgree(met: seq<CodeContext>) {
    forall m, n :: m in met && n in met ==> Agree(m, n)
  }

  lemma MetAgree(contexts: map<string, Workspace>, order: seq<string>, ids: set<string>)
    requires forall k :: k in order ==> k in contexts
    requires ids == set k | k in order
    ensures AllAgree(Met(contexts, order)) <==> GraphsAgree(contexts, ids)
  {
    hide Met, Agree;
    if AllAgree(Met(contexts, order)) {
      forall c, d, m, n | c in ids && d in ids && m in contexts[c].members && n in contexts[d].members ensures Agree(m, n) {
        MetMembers(contexts, order, m);
        MetMembers(contexts, order, n);
      }
    }
    if GraphsAgree(contexts, ids) {
      forall m, n | m in Met(contexts, order) && n in Met(contexts, order) ensures Agree(m, n) {
        MetMembers(contexts, order, m);
        MetMembers(contexts, order, n);
      }
    }
  }

  /** The table of graphs after those members: for each graph one of the members naming it. */
  ghost predicate Tabled(byGraphRef: map<string, CodeContext>, met: seq<CodeContext>) {
    && (forall m :: m in met ==> m.scope.graphRef in byGraphRef)
    && (forall g :: g in byGraphRef ==> byGraphRef[g] in met && byGraphRef[g].scope.graphRef == g)
  }

  /** Asking the table is asking every member met. */
  lemma TableSpeaksForAll(byGraphRef: map<string, CodeContext>, met: seq<CodeContext>, member: CodeContext)
    requires Tabled(byGraphRef, met) && AllAgree(met)
    ensures AllAgree(met + [member]) <==>
            (member.scope.graphRef in byGraphRef ==> Agree(byGraphRef[member.scope.graphRef], member))
    ensures Tabled(byGraphRef[member.scope.graphRef := member], met + [member])
  {
    var g := member.scope.graphRef;
    if g in byGraphRef && Agree(byGraphRef[g], member) {
      forall m, n | m in met + [member] && n in met + [member] ensures Agree(m, n) {
        assert m in met ==> Agree(m, byGraphRef[g]) && Agree(byGraphRef[g], m);
        assert n in met ==> Agree(n, byGraphRef[g]) && Agree(byGraphRef[g], n);
      }
    }
    if AllAgree(met + [member]) && g in byGraphRef {
      assert byGraphRef[g] in met + [member] && member in met + [member];
    }
  }

  lemma AgreePart(met: seq<CodeContext>, rest: seq<CodeContext>)
    requires AllAgree(met + rest)
    ensures AllAgree(met)
  {
    assert forall m :: m in met ==> m in met + rest;
  }

  /** Why one context is not in order, if it is not. */
  method CheckContext(
      repositories: map<string, string>, id: string, workspace: Workspace,
      table: map<string, CodeContext>, ghost met: seq<CodeContext>)
    returns (refusal: Option<Code>, byGraphRef: map<string, CodeContext>)
    requires Tabled(table, met) && AllAgree(met)
    ensures refusal.None? <==> GoodContext(repositories, id, workspace) && AllAgree(met + workspace.members)
    ensures refusal.None? ==> Tabled(byGraphRef, met + workspace.members)
    ensures refusal == Some(RepositoryNotFound) <==> exists j :: UndeclaredAt(repositories, id, workspace.members, met, j)
  {
    hide UndeclaredAt, Agree, Blank, Tabled, AllAgree, Filled, GoodMembers;
    byGraphRef := table;
    var members := workspace.members;
    if Blank(id) || members == [] {
      NoneOfNone(repositories, id, members, met);
      return Some(InvalidArgument), byGraphRef;
    }
    var declared: set<string> := {};
    assert met + members[..0] == met;
    NoMembers(repositories, members);
    for j := 0 to |members|
      invariant GoodMembers(repositories, members[..j])
      invariant forall name :: name in declared <==> Declares(members[..j], name)
      invariant AllAgree(met + members[..j]) && Tabled(byGraphRef, met + members[..j])
    {
      var member := members[j];
      OneMore(repositories, members, j);
      OnlyHere(repositories, id, members, met, j);
      if !Filled(member.scope) {
        return Some(InvalidArgument), byGraphRef;
      }
      if member.scope.repository !in repositories {
        return Some(RepositoryNotFound), byGraphRef;
      }
      if member.scope.repository in declared {
        return Some(InvalidArgument), byGraphRef;
      }
      declared := declared + {member.scope.repository};
      assert met + members[..j + 1] == met + members[..j] + [member];
      TableSpeaksForAll(byGraphRef, met + members[..j], member);
      if member.scope.graphRef in byGraphRef && !Agree(byGraphRef[member.scope.graphRef], member) {
        if AllAgree(met + members) {
          assert met + members == met + members[..j + 1] + members[j + 1..];
          AgreePart(met + members[..j + 1], members[j + 1..]);
        }
        return Some(InvalidArgument), byGraphRef;
      }
      byGraphRef := byGraphRef[member.scope.graphRef := member];
    }
    assert members[..|members|] == members;
    NoneOfGood(repositories, id, members, met);
    return None, byGraphRef;
  }

  lemma NoneOfNone(repositories: map<string, string>, id: string, members: seq<CodeContext>, met: seq<CodeContext>)
    requires Blank(id) || members == []
    ensures forall j :: !UndeclaredAt(repositories, id, members, met, j)
  {}

  lemma NoneOfGood(repositories: map<string, string>, id: string, members: seq<CodeContext>, met: seq<CodeContext>)
    requires GoodMembers(repositories, members)
    ensures forall j :: !UndeclaredAt(repositories, id, members, met, j)
  {
    hide AllAgree, Filled, Blank;
    forall j | 0 <= j < |members| ensures !UndeclaredAt(repositories, id, members, met, j) {
      assert GoodMember(repositories, members[j]);
    }
  }

  /** Where the members up to one are in order, that one decides: it is the undeclared one, or, when it is
      out of order itself, there is none. */
  lemma OnlyHere(repositories: map<string, string>, id: string, members: seq<CodeContext>, met: seq<CodeContext>, j: nat)
    requires j < |members| && !Blank(id) && GoodMembers(repositories, members[..j]) && AllAgree(met + members[..j])
    ensures Filled(members[j].scope) && members[j].scope.repository !in repositories ==> UndeclaredAt(repositories, id, members, met, j)
    ensures !Filled(members[j].scope) || members[j].scope.repository in repositories ==>
              || (GoodMembers(repositories, members[..j + 1]) && AllAgree(met + members[..j + 1]))
              || forall k :: !UndeclaredAt(repositories, id, members, met, k)
  {
    hide Agree, AllAgree, Filled, Blank;
    if (!Filled(members[j].scope) || members[j].scope.repository in repositories) &&
       !(GoodMembers(repositories, members[..j + 1]) && AllAgree(met + members[..j + 1]))
    {
      forall k | 0 <= k < |members| ensures !UndeclaredAt(repositories, id, members, met, k) {
        if k < j {
          assert members[..j][k] == members[k] && GoodMember(repositories, members[..j][k]);
        }
        if k > j && GoodMembers(repositories, members[..k]) && AllAgree(met + members[..k]) {
          assert members[..k][..j + 1] == members[..j + 1];
          assert met + members[..k] == met + members[..j + 1] + members[j + 1..k];
          AgreePart(met + members[..j + 1], members[j + 1..k]);
        }
      }
    }
  }

  lemma NoMembers(repositories: map<string, string>, members: seq<CodeContext>)
    ensures GoodMembers(repositories, members[..0])
  {}

  predicate Declares(members: seq<CodeContext>, name: string) {
    exists i :: 0 <= i < |members| && members[i].scope.repository == name
  }

  /** What one member more adds to being in order, and what it leaves wrong for good. */
  lemma OneMore(repositories: map<string, string>, members: seq<CodeContext>, j: nat)
    requires j < |members|
    ensures GoodMembers(repositories, members[..j + 1]) <==>
            && GoodMembers(repositories, members[..j]) && Filled(members[j].scope)
            && members[j].scope.repository in repositories && !Declares(members[..j], members[j].scope.repository)
    ensures GoodMembers(repositories, members) ==> GoodMembers(repositories, members[..j + 1])
    ensures forall name :: Declares(members[..j + 1], name) <==> Declares(members[..j], name) || name == members[j].scope.repository
  {
    hide Filled;
    forall name
      ensures Declares(members[..j + 1], name) <==> Declares(members[..j], name) || name == members[j].scope.repository
    {
      if Declares(members[..j], name) {
        var i :| 0 <= i < j && members[..j][i].scope.repository == name;
        assert members[..j + 1][i] == members[i];
      }
      if Declares(members[..j + 1], name) && name != members[j].scope.repository {
        var i :| 0 <= i < j + 1 && members[..j + 1][i].scope.repository == name;
        assert members[..j][i] == members[i];
      }
      assert members[..j + 1][j] == members[j];
    }
    assert members[..j + 1][j] == members[j];
    assert members[..j + 1] == members[..j] + [members[j]];
    assert GoodMembers(repositories, members[..j + 1]) ==> GoodMembers(repositories, members[..j]);
  }

  /** Accepts exactly what is acceptable, and names the first context that is not. */
  method Validate(cfg: Configuration) returns (refusal: Option<Refusal>)
    ensures refusal.None? <==> Acceptable(cfg)
    ensures refusal.Some? ==> Names(cfg, refusal.value)
    ensures refusal.Some? ==>
              (refusal.value.code == RepositoryNotFound <==> refusal.value.place.InContext? && UndeclaredIn(cfg, refusal.value.place.id))
  {
    hide UndeclaredIn, UndeclaredAt, GoodContext, AllAgree, Tabled, Agree, Blank, Increasing, Met, FirstOffence;
    NothingMet(cfg.contexts);
    var names := SortedKeys(cfg.repositories.Keys);
    for i := 0 to |names|
      invariant forall k :: 0 <= k < i ==> GoodRepository(cfg.repositories, names[k])
    {
      var name := names[i];
      assert name in cfg.repositories.Keys;
      assert GoodRepository(cfg.repositories, name) <==> !Blank(name) && !Blank(cfg.repositories[name]);
      if Blank(name) || Blank(cfg.repositories[name]) {
        return Some(Refusal(InvalidArgument, InRepository(name)));
      }
    }
    assert GoodRepositories(cfg.repositories) by {
      forall name | name in cfg.repositories ensures GoodRepository(cfg.repositories, name) {
        assert name in names;
      }
    }
    if |cfg.contexts| == 0 {
      return Some(Refusal(InvalidArgument, NoContexts));
    }

    var byGraphRef: map<string, CodeContext> := map[];
    var order := SortedKeys(cfg.contexts.Keys);
    ghost var met: seq<CodeContext> := [];
    assert order[..0] == [];
    for i := 0 to |order|
      invariant forall k :: 0 <= k < i ==> GoodContext(cfg.repositories, order[k], cfg.contexts[order[k]])
      invariant met == Met(cfg.contexts, order[..i])
      invariant AllAgree(met) && Tabled(byGraphRef, met)
    {
      var id := order[i];
      assert id in cfg.contexts.Keys;
      var workspace := cfg.contexts[id];
      MetNext(cfg, order, i);
      var code, table := CheckContext(cfg.repositories, id, workspace, byGraphRef, met);
      if code.Some? {
        StopsAt(cfg, order, i);
        UndeclaredThere(cfg, order, i, met);
        return Some(Refusal(code.value, InContext(id)));
      }
      byGraphRef := table;
      met := met + workspace.members;
    }
    assert order[..|order|] == order;
    MetAgree(cfg.contexts, order, cfg.contexts.Keys);
    assert forall id :: id in cfg.contexts ==> id in order;
    return None;
  }

  /** What was met before a context is what the contexts sorting before it hold. */
  lemma UndeclaredThere(cfg: Configuration, order: seq<string>, i: nat, met: seq<CodeContext>)
    requires Increasing(order) && (forall k :: k in order <==> k in cfg.contexts.Keys) && i < |order| && order[i] in cfg.contexts
    requires met == Met(cfg.contexts, order[..i])
    ensures UndeclaredIn(cfg, order[i]) <==> exists j :: UndeclaredAt(cfg.repositories, order[i], cfg.contexts[order[i]].members, met, j)
  {
    hide Met, Agree, Filled, Blank, Increasing, GoodMembers;
    BeforeAt(order, cfg.contexts.Keys, i);
    var id := order[i];
    var members := cfg.contexts[id].members;
    forall j | 0 <= j < |members|
      ensures Undeclared(cfg, id, j) <==> UndeclaredAt(cfg.repositories, id, members, met, j)
    {
      forall m ensures m in met + members[..j] <==> Seen(cfg, id, j, m) {
        MetMembers(cfg.contexts, order[..i], m);
      }
    }
    if UndeclaredIn(cfg, id) {
      var j :| Undeclared(cfg, id, j);
      assert UndeclaredAt(cfg.repositories, id, members, met, j);
    }
    if j :| UndeclaredAt(cfg.repositories, id, members, met, j) {
      assert Undeclared(cfg, id, j);
    }
  }

  lemma NothingMet(contexts: map<string, Workspace>)
    ensures Met(contexts, []) == [] && AllAgree([]) && Tabled(map[], [])
  {}

  lemma MetNext(cfg: Configuration, order: seq<string>, i: nat)
    requires i < |order| && forall k :: k in order ==> k in cfg.contexts
    ensures Met(cfg.contexts, order[..i + 1]) == Met(cfg.contexts, order[..i]) + cfg.contexts[order[i]].members
  {
    assert order[..i + 1][..i] == order[..i];
  }

  lemma StopsAt(cfg: Configuration, order: seq<string>, i: nat)
    requires Increasing(order) && (forall k :: k in order <==> k in cfg.contexts.Keys) && i < |order|
    requires forall k :: 0 <= k < i ==> GoodContext(cfg.repositories, order[k], cfg.contexts[order[k]])
    requires AllAgree(Met(cfg.contexts, order[..i]))
    requires !(GoodContext(cfg.repositories, order[i], cfg.contexts[order[i]]) && AllAgree(Met(cfg.contexts, order[..i + 1])))
    ensures FirstOffence(cfg, order[i]) && !Acceptable(cfg)
  {
    hide Met, GoodContext, AllAgree;
    BeforeAt(order, cfg.contexts.Keys, i);
    var before := Before(cfg.contexts.Keys, order[i]);
    MetAgree(cfg.contexts, order[..i], before);
    assert order[..i + 1] == order[..i] + [order[i]];
    MetAgree(cfg.contexts, order[..i + 1], before + {order[i]});
    assert order[i] in cfg.contexts;
    assert before + {order[i]} <= cfg.contexts.Keys;
  }

  /** The context named does not depend on anything but the configuration. */
  lemma OneFirstOffence(cfg: Configuration, a: string, b: string)
    requires FirstOffence(cfg, a) && FirstOffence(cfg, b)
    ensures a == b
  {
    LessTotal(a, b);
    if Less(a, b) { OffenceShows(cfg, a, b); }
    if Less(b, a) { OffenceShows(cfg, b, a); }
  }

  lemma OffenceShows(cfg: Configuration, a: string, b: string)
    requires FirstOffence(cfg, a) && Less(a, b)
    ensures !FirstOffence(cfg, b)
  {
    hide GoodContext;
    var keys := cfg.contexts.Keys;
    forall k | k in Before(keys, a) + {a} ensures k in Before(keys, b) {
      if k != a { LessTransitive(k, a, b); }
    }
  }

  // ---------------------------------------------------------------- the two spellings

  /** A context as a file writes it: one repository's fields inline, a members list, or neither. */
  datatype Declared = Declared(inline: Scope, members: Option<seq<Scope>>)

  datatype File = File(settings: Settings, repositories: map<string, string>, contexts: map<string, Declared>)

  predicate Conflicted(d: Declared) { d.inline != NO_SCOPE && d.members.Some? }

  function Filed(id: string, scopes: seq<Scope>): (members: seq<CodeContext>)
    ensures |members| == |scopes| && forall i :: 0 <= i < |scopes| ==> members[i] == CodeContext(id, scopes[i])
  {
    seq(|scopes|, i requires 0 <= i < |scopes| => CodeContext(id, scopes[i]))
  }

  function ScopesMeant(d: Declared): seq<Scope> {
    if d.inline != NO_SCOPE then [d.inline] else if d.members.Some? then d.members.value else []
  }

  function Meant(id: string, d: Declared): Workspace { Workspace(id, Filed(id, ScopesMeant(d))) }

  function MeantContexts(contexts: map<string, Declared>): map<string, Workspace> {
    map id | id in contexts :: Meant(id, contexts[id])
  }

  function MeantBy(file: File): Configuration {
    Configuration(file.settings, file.repositories, MeantContexts(file.contexts))
  }

  ghost predicate Unambiguous(file: File) {
    forall id :: id in file.contexts ==> !Conflicted(file.contexts[id])
  }

  /** What loading a file gives, or None when it is refused. */
  ghost function Loaded(file: File): Option<Configuration> {
    if Unambiguous(file) && Acceptable(MeantBy(file)) then Some(MeantBy(file)) else None
  }

  /** One declaration, folded into the workspace it means. */
  method WorkspaceOf(id: string, d: Declared) returns (w: Option<Workspace>)
    ensures w.None? <==> Conflicted(d)
    ensures w.Some? ==> w.value == Meant(id, d)
    ensures w.None? <==>
              && d.members.Some?
              && (d.inline.repository != "" || d.inline.branch != "" || d.inline.revision != "" || d.inline.graphRef != "")
    ensures w.Some? && d.inline != NO_SCOPE ==> w.value == Workspace(id, [CodeContext(id, d.inline)])
    ensures w.Some? && d.inline == NO_SCOPE && d.members.None? ==> w.value == Workspace(id, [])
    ensures w.Some? && d.inline == NO_SCOPE && d.members.Some? ==>
              && w.value.id == id && |w.value.members| == |d.members.value|
              && forall i :: 0 <= i < |d.members.value| ==> w.value.members[i] == CodeContext(id, d.members.value[i])
  {
    if d.inline != NO_SCOPE && d.members.Some? {
      return None;
    }
    if d.inline != NO_SCOPE {
      return Some(Workspace(id, [CodeContext(id, d.inline)]));
    }
    var members: seq<CodeContext> := [];
    var scopes := if d.members.Some? then d.members.value else [];
    for i := 0 to |scopes|
      invariant |members| == i && forall k :: 0 <= k < i ==> members[k] == CodeContext(id, scopes[k])
    {
      members := members + [CodeContext(id, scopes[i])];
    }
    assert members == Filed(id, scopes);
    return Some(Workspace(id, members));
  }

  /** The least context written both ways is the one a refusal names. */
  ghost predicate FirstConflict(file: File, id: string) {
    && id in file.contexts && Conflicted(file.contexts[id])
    && forall k :: k in file.contexts && Conflicted(file.contexts[k]) ==> k == id || Less(id, k)
  }

  datatype Loading = Fine(cfg: Configuration) | Refused(why: Refusal)

  method Load(file: File) returns (result: Loading)
    ensures result.Fine? <==> Loaded(file).Some?
    ensures result.Fine? ==> result.cfg == Loaded(file).value
    ensures result.Refused? && !Unambiguous(file) ==>
              result.why.code == InvalidArgument && result.why.place.InContext? && FirstConflict(file, result.why.place.id)
    ensures result.Refused? && Unambiguous(file) ==>
              && Names(MeantBy(file), result.why)
              && (result.why.code == RepositoryNotFound <==> result.why.place.InContext? && UndeclaredIn(MeantBy(file), result.why.place.id))
  {
    hide UndeclaredIn, Names, Acceptable, Increasing, FirstConflict, Conflicted, Meant;
    var contexts: map<string, Workspace> := map[];
    var order := SortedKeys(file.contexts.Keys);
    for i := 0 to |order|
      invariant contexts.Keys == set k | k in order[..i]
      invariant forall k :: k in contexts ==> k in file.contexts && contexts[k] == Meant(k, file.contexts[k])
      invariant forall j :: 0 <= j < i ==> order[j] in file.contexts && !Conflicted(file.contexts[order[j]])
    {
      var id := order[i];
      assert id in file.contexts.Keys;
      var workspace := WorkspaceOf(id, file.contexts[id]);
      if workspace.None? {
        LeastConflict(file, order, i);
        return Refused(Refusal(InvalidArgument, InContext(id)));
      }
      assert order[..i + 1] == order[..i] + [id];
      contexts := contexts[id := workspace.value];
    }
    assert order[..|order|] == order;
    assert contexts == MeantContexts(file.contexts);
    assert forall id :: id in file.contexts ==> id in order;
    var cfg := Configuration(file.settings, file.repositories, contexts);
    var refusal := Validate(cfg);
    if refusal.Some? {
      return Refused(refusal.value);
    }
    return Fine(cfg);
  }

  lemma LeastConflict(file: File, order: seq<string>, i: nat)
    requires Increasing(order) && (forall k :: k in order <==> k in file.contexts.Keys) && i < |order|
    requires forall j :: 0 <= j < i ==> order[j] in file.contexts && !Conflicted(file.contexts[order[j]])
    requires order[i] in file.contexts && Conflicted(file.contexts[order[i]])
    ensures FirstConflict(file, order[i]) && !Unambiguous(file)
  {
    forall k | k in file.contexts && Conflicted(file.contexts[k]) ensures k == order[i] || Less(order[i], k) {
      assert k in file.contexts.Keys;
      var j :| 0 <= j < |order| && order[j] == k;
    }
  }

  function ScopesOf(members: seq<CodeContext>): (scopes: seq<Scope>)
    ensures |scopes| == |members| && forall i :: 0 <= i < |members| ==> scopes[i] == members[i].scope
  {
    seq(|members|, i requires 0 <= i < |members| => members[i].scope)
  }

  /** The spelling a workspace's member count decides. */
  function Spelling(w: Workspace): Declared {
    if |w.members| == 1 then Declared(w.members[0].scope, None) else Declared(NO_SCOPE, Some(ScopesOf(w.members)))
  }

  function SpelledContexts(contexts: map<string, Workspace>): map<string, Declared> {
    map id | id in contexts :: Spelling(contexts[id])
  }

  function Spelled(cfg: Configuration): File {
    File(cfg.settings, cfg.repositories, SpelledContexts(cfg.contexts))
  }

  /** Writing a configuration, context by context in whatever order they come. */
  method Marshal(cfg: Configuration) returns (file: File)
    ensures file == Spelled(cfg)
    ensures file.settings == cfg.settings && file.repositories == cfg.repositories && file.contexts.Keys == cfg.contexts.Keys
    ensures forall id :: id in cfg.contexts ==>
              var members := cfg.contexts[id].members;
              if |members| == 1 then file.contexts[id] == Declared(members[0].scope, None)
              else file.contexts[id] == Declared(Scope("", "", "", ""), Some(ScopesOf(members)))
  {
    var contexts: map<string, Declared> := map[];
    var left := cfg.contexts.Keys;
    while left != {}
      invariant left <= cfg.contexts.Keys
      invariant contexts.Keys == cfg.contexts.Keys - left
      invariant forall id :: id in contexts ==> contexts[id] == Spelling(cfg.contexts[id])
      decreases |left|
    {
      var id :| id in left;
      left := left - {id};
      var workspace := cfg.contexts[id];
      if |workspace.members| == 1 {
        contexts := contexts[id := Declared(workspace.members[0].scope, None)];
      } else {
        contexts := contexts[id := Declared(NO_SCOPE, Some(ScopesOf(workspace.members)))];
      }
    }
    assert contexts == SpelledContexts(cfg.contexts);
    file := File(cfg.settings, cfg.repositories, contexts);
  }

  /** Every context, and every member of it, carries the id it is filed under. */
  ghost predicate FiledUnderKeys(contexts: map<string, Workspace>) {
    forall id :: id in contexts ==> FiledUnder(id, contexts[id])
  }

  predicate FiledUnder(id: string, w: Workspace) {
    w.id == id && forall i :: 0 <= i < |w.members| ==> w.members[i].id == id
  }

  /** One workspace comes back from its spelling unless its only member says nothing at all. */
  lemma SpellingMeans(id: string, w: Workspace)
    ensures !Conflicted(Spelling(w))
    ensures Meant(id, Spelling(w)) == w <==> FiledUnder(id, w) && (|w.members| == 1 ==> w.members[0].scope != NO_SCOPE)
  {
    if FiledUnder(id, w) && (|w.members| == 1 ==> w.members[0].scope != NO_SCOPE) {
      assert Filed(id, ScopesMeant(Spelling(w))) == w.members;
    }
    if Meant(id, Spelling(w)) == w && |w.members| == 1 {
      assert |Filed(id, ScopesMeant(Spelling(w)))| == 1;
    }
  }

  /** Loading what was written gives the configuration back exactly when it was a valid one whose
      contexts carry the ids they are filed under. */
  lemma MarshalLoad(cfg: Configuration)
    ensures Loaded(Spelled(cfg)) == Some(cfg) <==> FiledUnderKeys(cfg.contexts) && Acceptable(cfg)
  {
    hide Spelling, Meant, FiledUnder, Acceptable, Conflicted;
    forall id | id in cfg.contexts
      ensures !Conflicted(Spelling(cfg.contexts[id]))
      ensures Meant(id, Spelling(cfg.contexts[id])) == cfg.contexts[id] ==> FiledUnder(id, cfg.contexts[id])
      ensures FiledUnder(id, cfg.contexts[id]) && Acceptable(cfg) ==> Meant(id, Spelling(cfg.contexts[id])) == cfg.contexts[id]
    {
      SpellingMeans(id, cfg.contexts[id]);
      if Acceptable(cfg) && |cfg.contexts[id].members| == 1 { AcceptedSaysSomething(cfg, id); }
    }
    var file := Spelled(cfg);
    assert file.contexts.Keys == cfg.contexts.Keys;
    if FiledUnderKeys(cfg.contexts) && Acceptable(cfg) {
      assert MeantContexts(file.contexts) == cfg.contexts;
    }
    if Loaded(file) == Some(cfg) {
      forall id | id in cfg.contexts ensures FiledUnder(id, cfg.contexts[id]) {
        assert MeantContexts(file.contexts)[id] == cfg.contexts[id];
      }
    }
  }

  lemma AcceptedSaysSomething(cfg: Configuration, id: string)
    requires Acceptable(cfg) && id in cfg.contexts && |cfg.contexts[id].members| == 1
    ensures cfg.contexts[id].members[0].scope != NO_SCOPE
  {
    assert GoodContext(cfg.repositories, id, cfg.contexts[id]);
    assert GoodMember(cfg.repositories, cfg.contexts[id].members[0]);
    assert Blank("");
  }

  /** Whatever file was loaded, writing the configuration and loading it again changes nothing. */
  lemma LoadedOnceForAll(file: File)
    requires Loaded(file).Some?
    ensures Loaded(Spelled(Loaded(file).value)) == Loaded(file)
  {
    var cfg := Loaded(file).value;
    hide Acceptable;
    forall id | id in cfg.contexts ensures FiledUnder(id, cfg.contexts[id]) {
      assert cfg.contexts[id] == Meant(id, file.contexts[id]);
    }
    MarshalLoad(cfg);
  }

  /** Two spellings, one meaning: the two ways of writing one repository are one workspace. */
  lemma OneMeaning(id: string, d: Declared, e: Declared)
    requires !Conflicted(d) && !Conflicted(e)
    ensures Meant(id, d) == Meant(id, e) <==> ScopesMeant(d) == ScopesMeant(e)
    ensures forall s: Scope :: s != NO_SCOPE ==> Meant(id, Declared(s, None)) == Meant(id, Declared(NO_SCOPE, Some([s])))
  {
    if Meant(id, d) == Meant(id, e) {
      var a, b := Filed(id, ScopesMeant(d)), Filed(id, ScopesMeant(e));
      assert |ScopesMeant(d)| == |ScopesMeant(e)|;
      forall i | 0 <= i < |ScopesMeant(d)| ensures ScopesMeant(d)[i] == ScopesMeant(e)[i] {
        assert a[i] == b[i];
      }
    }
  }
}
