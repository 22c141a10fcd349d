/** What a rebuild makes of a repository's refs and shard, and what a whole removal leaves behind: who
    it takes from, and who is spared. */
module Rebuild {
  import opened Names
  import opened NameOrder
  import opened Lifecycle
  import opened Managed
  import opened ManagedInvariant

  // ---------------------------------------------------------------- refs

  /** The branches among branches wanted at revisions. */
  function Branches(wanted: set<(string, string)>): set<string> { set w | w in wanted :: w.0 }

  /** The clones after one ref of one of them has been written. */
  function WithRef(clones: map<string, Clone>, r: string, e: (string, string)): map<string, Clone>
    requires r in clones && clones[r].Whole?
  {
    clones[r := clones[r].(refs := clones[r].refs[e.0 := e.1])]
  }

  /** The refs are as they were, but for these branches being at a revision they are wanted at. */
  ghost predicate CloneFollows(before: Clone, after: Clone, done: set<(string, string)>) {
    if before.Damaged? then after == before && done == {}
    else
      && after.Whole? && after.commits == before.commits
      && after.refs.Keys == before.refs.Keys + Branches(done)
      && forall b :: b in after.refs ==>
           if b in Branches(done) then (b, after.refs[b]) in done else after.refs[b] == before.refs[b]
  }

  /** That of one repository, and no other clone touched. */
  ghost predicate RefsFollow(before: map<string, Clone>, after: map<string, Clone>, r: string, done: set<(string, string)>) {
    && after.Keys == before.Keys
    && (forall x :: x in after && x != r ==> after[x] == before[x])
    && (r in after ==> CloneFollows(before[r], after[r], done))
  }

  lemma MoreBranches(done: set<(string, string)>, w: (string, string))
    ensures Branches(done + {w}) == Branches(done) + {w.0}
  {
    assert w in done + {w};
  }

  lemma FollowsNothing(clones: map<string, Clone>, r: string)
    ensures RefsFollow(clones, clones, r, {}) && Branches({}) == {}
  {}

  lemma FollowsOneMore(before: map<string, Clone>, mid: map<string, Clone>, r: string, e: (string, string), done: set<(string, string)>)
    requires r in before && r in mid && mid[r].Whole? && RefsFollow(before, mid, r, done)
    ensures RefsFollow(before, WithRef(mid, r, e), r, done + {e}) && Branches(done + {e}) == Branches(done) + {e.0}
  {
    MoreBranches(done, e);
  }

  lemma AllThere(before: map<string, Clone>, after: map<string, Clone>, r: string, done: set<(string, string)>)
    requires RefsFollow(before, after, r, done) && r in before && done != {}
    ensures r in after && after[r].Whole? && Branches(done) <= after[r].refs.Keys
  {}

  lemma SomeBranch(done: set<(string, string)>)
    ensures Branches(done) == {} <==> done == {}
  {
    if d :| d in done { assert d.0 in Branches(done); }
  }

  // ---------------------------------------------------------------- a whole index

  function WantedHere(records: map<string, Record>, clones: map<string, Clone>, r: string): set<(string, string)> {
    if r in clones then Wanted(records, r) else {}
  }

  /** One repository's refs and shard after a rebuild: the wanted branches at wanted revisions, and a
      shard of exactly those, or none. */
  ghost predicate RebuiltAt(records: map<string, Record>, clones: map<string, Clone>, clones': map<string, Clone>,
                            shards: map<string, map<string, string>>, shards': map<string, map<string, string>>, r: string)
  {
    var wanted := WantedHere(records, clones, r);
    && (r in clones' <==> r in clones)
    && (r in clones ==> CloneFollows(clones[r], clones'[r], wanted))
    && (wanted == {} ==> r !in shards')
    && (wanted != {} ==>
          && clones'[r].Whole? && Branches(wanted) <= clones'[r].refs.Keys
          && r in shards' && shards'[r] == map b | b in Branches(wanted) :: clones'[r].refs[b])
  }

  /** The repositories of a list are rebuilt, and no other is touched. */
  ghost predicate AllRebuilt(records: map<string, Record>, clones: map<string, Clone>, clones': map<string, Clone>,
                             shards: map<string, map<string, string>>, shards': map<string, map<string, string>>, order: seq<string>)
  {
    forall r ::
      if r in order then RebuiltAt(records, clones, clones', shards, shards', r)
      else Same(clones, clones', r) && Same(shards, shards', r)
  }

  lemma NothingRebuilt(records: map<string, Record>, clones: map<string, Clone>, shards: map<string, map<string, string>>)
    ensures AllRebuilt(records, clones, clones, shards, shards, [])
  {}

  lemma NotYet(order: seq<string>, i: nat)
    requires Increasing(order) && i < |order|
    ensures order[i] !in order[..i] && order[..i + 1] == order[..i] + [order[i]]
  {
    if order[i] in order[..i] {
      var j :| 0 <= j < i && order[..i][j] == order[i];
      LessIrreflexive(order[i]);
    }
  }

  lemma OneMoreRebuilt(records: map<string, Record>, c0: map<string, Clone>, c1: map<string, Clone>, c2: map<string, Clone>,
                       s0: map<string, map<string, string>>, s1: map<string, map<string, string>>, s2: map<string, map<string, string>>,
                       order: seq<string>, i: nat)
    requires Increasing(order) && i < |order|
    requires AllRebuilt(records, c0, c1, s0, s1, order[..i]) && RebuiltAt(records, c1, c2, s1, s2, order[i])
    requires forall x :: x != order[i] ==> Same(c1, c2, x) && Same(s1, s2, x)
    ensures AllRebuilt(records, c0, c2, s0, s2, order[..i + 1])
  {
    hide RebuiltAt, Less, Increasing;
    var r := order[i];
    NotYet(order, i);
    assert Same(c0, c1, r) && Same(s0, s1, r);
    RebuiltFrom(records, c0, c1, c2, s0, s1, s2, r);
    forall x | x != r
      ensures if x in order[..i] then RebuiltAt(records, c0, c2, s0, s2, x) else Same(c0, c2, x) && Same(s0, s2, x)
    {
      assert Same(c1, c2, x) && Same(s1, s2, x);
      if x in order[..i] {
        RebuiltTo(records, c0, c1, c2, s0, s1, s2, x);
      } else {
        assert Same(c0, c1, x) && Same(s0, s1, x);
      }
    }
  }

  /** Being rebuilt is a matter of one repository: of what it was, and of what it is. */
  lemma RebuiltFrom(records: map<string, Record>, c0: map<string, Clone>, c1: map<string, Clone>, c2: map<string, Clone>,
                    s0: map<string, map<string, string>>, s1: map<string, map<string, string>>, s2: map<string, map<string, string>>, r: string)
    requires Same(c0, c1, r) && Same(s0, s1, r) && RebuiltAt(records, c1, c2, s1, s2, r)
    ensures RebuiltAt(records, c0, c2, s0, s2, r)
  {
    hide Wanted, CloneFollows;
  }

  lemma RebuiltTo(records: map<string, Record>, c0: map<string, Clone>, c1: map<string, Clone>, c2: map<string, Clone>,
                  s0: map<string, map<string, string>>, s1: map<string, map<string, string>>, s2: map<string, map<string, string>>, r: string)
    requires Same(c1, c2, r) && Same(s1, s2, r) && RebuiltAt(records, c0, c1, s0, s1, r)
    ensures RebuiltAt(records, c0, c2, s0, s2, r)
  {
    hide Wanted, CloneFollows;
  }

  // ---------------------------------------------------------------- a whole removal

  function GraphsOf(members: seq<Member>): set<string> { set m | m in members :: m.graphRef }

  function TreesOf(id: string, members: seq<Member>): set<(string, string)> { set m | m in members :: (m.repository, id) }

  function BranchesIn(members: seq<Member>, r: string): set<string> {
    set m | m in members && m.repository == r && m.branch != "" :: m.branch
  }

  /** The clones without the members' search refs. */
  function WithoutRefs(clones: map<string, Clone>, members: seq<Member>): map<string, Clone> {
    map r | r in clones ::
      if clones[r].Damaged? then clones[r] else Whole(clones[r].commits, clones[r].refs - BranchesIn(members, r))
  }

  function WithoutRef(clones: map<string, Clone>, m: Member): map<string, Clone> {
    if m.branch != "" && m.repository in clones && clones[m.repository].Whole? then
      clones[m.repository := Whole(clones[m.repository].commits, clones[m.repository].refs - {m.branch})]
    else clones
  }

  lemma OneMemberMore(id: string, clones: map<string, Clone>, members: seq<Member>, i: nat)
    requires i < |members|
    ensures GraphsOf(members[..i + 1]) == GraphsOf(members[..i]) + {members[i].graphRef}
    ensures TreesOf(id, members[..i + 1]) == TreesOf(id, members[..i]) + {(members[i].repository, id)}
    ensures WithoutRefs(clones, members[..i + 1]) == WithoutRef(WithoutRefs(clones, members[..i]), members[i])
  {
    assert members[..i + 1] == members[..i] + [members[i]];
    var m, had := members[i], WithoutRefs(clones, members[..i]);
    forall r | r in clones ensures WithoutRefs(clones, members[..i + 1])[r] == WithoutRef(had, m)[r] {
      assert BranchesIn(members[..i + 1], r) == BranchesIn(members[..i], r) + if m.repository == r && m.branch != "" then {m.branch} else {};
      if clones[r].Whole? {
        assert clones[r].refs - (BranchesIn(members[..i], r) + {m.branch}) == clones[r].refs - BranchesIn(members[..i], r) - {m.branch};
      }
    }
  }

  lemma NoMember(id: string, clones: map<string, Clone>, members: seq<Member>)
    ensures GraphsOf(members[..0]) == {} && TreesOf(id, members[..0]) == {} && WithoutRefs(clones, members[..0]) == clones
  {
    forall r | r in clones ensures WithoutRefs(clones, members[..0])[r] == clones[r] {
      assert BranchesIn(members[..0], r) == {};
      assert clones[r].Whole? ==> clones[r].refs - {} == clones[r].refs;
    }
  }

  /** The records while a context is being taken away. */
  function Removing_(records: map<string, Record>, id: string): map<string, Record>
    requires id in records
  {
    records[id := Record(records[id].members, Removing)]
  }

  /** What a whole removal makes of everything: the record, the members' graphs and worktrees are gone,
      their refs are dropped, and then each of their repositories is rebuilt from the other records. */
  ghost predicate RemovalLeaves(w: World, w': World, id: string) {
    && id in w.records
    && var members := w.records[id].members;
    && w'.records == w.records - {id} && w'.repositories == w.repositories
    && w'.graphs == w.graphs - GraphsOf(members)
    && w'.trees == w.trees - TreesOf(id, members)
    && AllRebuilt(Removing_(w.records, id), WithoutRefs(w.clones, members), w'.clones, w.shards, w'.shards, LockNames(RepositoriesOf(members)))
  }

  /** Another record's member that wants this branch of this clone. */
  ghost predicate WantedByOther(records: map<string, Record>, id: string, m: Member) {
    exists d, n :: d in records && d != id && records[d].state != Removing && n in records[d].members &&
                   n.repository == m.repository && n.branch == m.branch
  }

  lemma OthersWant(records: map<string, Record>, id: string, m: Member)
    requires id in records && m.branch != ""
    ensures m.branch in Branches(Wanted(Removing_(records, id), m.repository)) <==> WantedByOther(records, id, m)
  {
    var wanted := Wanted(Removing_(records, id), m.repository);
    if m.branch in Branches(wanted) {
      var e :| e in wanted && e.0 == m.branch;
      var d, n :| d in Removing_(records, id) && Removing_(records, id)[d].state != Removing && n in Removing_(records, id)[d].members &&
                  n.repository == m.repository && n.branch != "" && e == (n.branch, n.revision);
      assert d != id && n in records[d].members;
    }
    if WantedByOther(records, id, m) {
      var d, n :| d in records && d != id && records[d].state != Removing && n in records[d].members && n.repository == m.repository && n.branch == m.branch;
      assert d in Removing_(records, id) && Removing_(records, id)[d] == records[d];
      assert (n.branch, n.revision) in wanted;
    }
  }

  lemma InOrder(members: seq<Member>, m: Member)
    ensures m in members ==> m.repository in LockNames(RepositoriesOf(members))
    ensures m.repository in LockNames(RepositoriesOf(members)) ==> exists k :: k in members && k.repository == m.repository
  {
    var names := RepositoriesOf(members);
    if m in members {
      var i :| 0 <= i < |members| && members[i] == m;
      assert names[i] == m.repository;
    }
    if m.repository in names {
      var i :| 0 <= i < |names| && names[i] == m.repository;
      assert members[i] in members;
    }
  }

  /** What was the context's own is gone: its graphs and worktrees in any case; a branch of it is in the
      clone or the shard afterwards only where another context's member names the same one. */
  lemma RemovalTakes(w: World, w': World, id: string, m: Member)
    requires RemovalLeaves(w, w', id) && m in w.records[id].members && m.branch != ""
    ensures m.graphRef !in w'.graphs && (m.repository, id) !in w'.trees
    ensures m.repository in w'.clones && w'.clones[m.repository].Whole? ==>
              (m.branch in w'.clones[m.repository].refs <==> WantedByOther(w.records, id, m))
    ensures m.repository in w'.clones && WantedByOther(w.records, id, m) ==> m.repository in w'.shards && m.branch in w'.shards[m.repository]
    ensures !WantedByOther(w.records, id, m) ==> NoShard(w'.shards, m)
  {
    var members := w.records[id].members;
    InOrder(members, m);
    OthersWant(w.records, id, m);
    assert m.branch in BranchesIn(members, m.repository);
    hide LockNames, RepositoriesOf, Wanted;
    assert RebuiltAt(Removing_(w.records, id), WithoutRefs(w.clones, members), w'.clones, w.shards, w'.shards, m.repository);
  }

  /** Every other wanted member of this branch pins the same revision. */
  ghost predicate OneRevision(records: map<string, Record>, id: string, n: Member) {
    forall d, k :: d in records && d != id && k in records[d].members && k.repository == n.repository && k.branch == n.branch ==>
      k.revision == n.revision
  }

  lemma StillWanted(records: map<string, Record>, id: string, d: string, n: Member)
    requires id in records && d in records && d != id && records[d].state != Removing && n in records[d].members && n.branch != ""
    requires OneRevision(records, id, n)
    ensures (n.branch, n.revision) in Wanted(Removing_(records, id), n.repository) && n.branch in Branches(Wanted(Removing_(records, id), n.repository))
    ensures forall e :: e in Wanted(Removing_(records, id), n.repository) && e.0 == n.branch ==> e.1 == n.revision
  {
    var now := Removing_(records, id);
    var wanted := Wanted(now, n.repository);
    assert now[d] == records[d];
    assert (n.branch, n.revision) in wanted;
    forall e | e in wanted && e.0 == n.branch ensures e.1 == n.revision {
      var c, k :| c in now && now[c].state != Removing && k in now[c].members && k.repository == n.repository && k.branch != "" && e == (k.branch, k.revision);
      assert c != id && k in records[c].members;
    }
  }

  /** A removal spares what another context is searched by, even where the two name one branch of one
      clone: the removal's own rebuild writes a shared ref again, from the other record. */
  lemma RemovalSparesSearch(w: World, w': World, id: string, d: string, n: Member)
    requires RemovalLeaves(w, w', id) && d in w.records && d != id && w.records[d].state != Removing
    requires n in w.records[d].members && n.branch != "" && OneRevision(w.records, id, n)
    requires HasRef(w.clones, n) && HasShard(w.shards, n)
    ensures HasRef(w'.clones, n) && HasShard(w'.shards, n)
  {
    var members := w.records[id].members;
    var r := n.repository;
    var cleared := WithoutRefs(w.clones, members);
    var order := LockNames(RepositoriesOf(members));
    StillWanted(w.records, id, d, n);
    InOrder(members, n);
    hide LockNames, RepositoriesOf, Wanted;
    if r in order {
      assert RebuiltAt(Removing_(w.records, id), cleared, w'.clones, w.shards, w'.shards, r);
      assert (n.branch, w'.clones[r].refs[n.branch]) in Wanted(Removing_(w.records, id), r);
    } else {
      assert Same(cleared, w'.clones, r) && Same(w.shards, w'.shards, r);
      forall m | m in members ensures m.repository != r { InOrder(members, m); }
      assert BranchesIn(members, r) == {};
    }
  }

  /** A whole removal leaves another READY context built exactly when no member of the removed one
      carries the graph name of one of its own. */
  lemma RemovalSpares(w: World, w': World, id: string, d: string, n: Member)
    requires RemovalLeaves(w, w', id) && d in w.records && d != id && w.records[d].state != Removing
    requires n in w.records[d].members && n.branch != "" && OneRevision(w.records, id, n) && Built(w, d, n)
    ensures Built(w', d, n) <==> forall m :: m in w.records[id].members ==> m.graphRef != n.graphRef
  {
    RemovalSparesSearch(w, w', id, d, n);
    hide AllRebuilt;
    var members := w.records[id].members;
    assert (n.repository, d) !in TreesOf(id, members);
    assert n.graphRef in GraphsOf(members) <==> exists m :: m in members && m.graphRef == n.graphRef;
  }

  /** Repository and id, joined, are one text, at one short SHA. */
  predicate OneText(id: string, m: Member, d: string, n: Member) {
    && m.repository + "-" + id == n.repository + "-" + d
    && |m.revision| >= SHORT_SHA && |n.revision| >= SHORT_SHA && ShortSha(m.revision) == ShortSha(n.revision)
  }

  /** In terms of the names: exactly when the two are not one text. */
  lemma RemovalSparesByName(w: World, w': World, id: string, d: string, n: Member)
    requires RemovalLeaves(w, w', id) && d in w.records && d != id && w.records[d].state != Removing
    requires n in w.records[d].members && n.branch != "" && OneRevision(w.records, id, n) && Built(w, d, n)
    requires VerifyIdentity(id, w.records[id].members) && VerifyIdentity(d, w.records[d].members)
    ensures Built(w', d, n) <==>
            forall m :: m in w.records[id].members ==> !OneText(id, m, d, n)
  {
    RemovalSpares(w, w', id, d, n);
    hide RemovalLeaves, Built, GraphRef, SearchRef, OneRevision;
    var j :| 0 <= j < |w.records[d].members| && w.records[d].members[j] == n;
    assert Identified(d, w.records[d].members, j);
    forall m | m in w.records[id].members
      ensures m.graphRef == n.graphRef <==> OneText(id, m, d, n)
    {
      var i :| 0 <= i < |w.records[id].members| && w.records[id].members[i] == m;
      assert Identified(id, w.records[id].members, i);
      GraphRefClash(id, m.repository, m.revision, d, n.repository, n.revision);
    }
  }
}
