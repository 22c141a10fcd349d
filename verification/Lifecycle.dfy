/** The states a context record carries, the moves between them, and the record itself. */
module Lifecycle {
  import opened Names
  import opened NameOrder

  datatype Stage =
    | Creating | Resolving | PreparingSource | IndexingSearch | IndexingGraph | Verifying | Ready
    | Failed | Removing

  /** The path a context is built along; FAILED and REMOVING are not stages of building one. */
  const LIFECYCLE: seq<Stage> :=
    [Creating, Resolving, PreparingSource, IndexingSearch, IndexingGraph, Verifying, Ready]

  function Position(s: Stage): (at: int)
    ensures -1 <= at < |LIFECYCLE|
    ensures at >= 0 ==> LIFECYCLE[at] == s
    ensures at < 0 <==> s.Failed? || s.Removing?
  {
    match s
    case Creating => 0
    case Resolving => 1
    case PreparingSource => 2
    case IndexingSearch => 3
    case IndexingGraph => 4
    case Verifying => 5
    case Ready => 6
    case Failed => -1
    case Removing => -1
  }

  /** Whether a context may move from one state to the other. */
  predicate Advances(from: Stage, to: Stage) {
    if to == Removing then true
    else
      var at := Position(from);
      if at < 0 || from == Ready then false
      else to == Failed || to == LIFECYCLE[at + 1]
  }

  /** The moves there are: one stage on while a context is being built, to FAILED from any stage of
      building it, and to REMOVING from anywhere. Nothing but a removal leaves READY, FAILED or REMOVING. */
  lemma AdvancesExactly(from: Stage, to: Stage)
    ensures Advances(from, to) <==>
              || to == Removing
              || (to == Failed && from in {Creating, Resolving, PreparingSource, IndexingSearch, IndexingGraph, Verifying})
              || (from, to) in {(Creating, Resolving), (Resolving, PreparingSource), (PreparingSource, IndexingSearch),
                                (IndexingSearch, IndexingGraph), (IndexingGraph, Verifying), (Verifying, Ready)}
  {
    assert LIFECYCLE[0] == Creating && LIFECYCLE[1] == Resolving && LIFECYCLE[2] == PreparingSource && LIFECYCLE[3] == IndexingSearch;
    assert LIFECYCLE[4] == IndexingGraph && LIFECYCLE[5] == Verifying && LIFECYCLE[6] == Ready;
  }

  /** One repository of a context, pinned to one revision of it. */
  datatype Member = Member(repository: string, branch: string, revision: string, graphRef: string)

  /** A context record; the id is the key it is filed under. */
  datatype Record = Record(members: seq<Member>, state: Stage)

  function RepositoriesOf(members: seq<Member>): (names: seq<string>)
    ensures |names| == |members|
    ensures forall i :: 0 <= i < |members| ==> names[i] == members[i].repository
  {
    seq(|members|, i requires 0 <= i < |members| => members[i].repository)
  }

  /** The member a create pins: its names are generated from the whole member list's length. */
  function PinnedMember(id: string, several: bool, repository: string, revision: string): Member
    requires |revision| == FULL_SHA
  {
    Member(repository, SearchRef(id, several, repository, revision), revision, GraphRef(id, repository, revision))
  }

  function PinnedMembers(id: string, pins: seq<string>, revisions: seq<string>): (members: seq<Member>)
    requires |pins| == |revisions|
    requires forall i :: 0 <= i < |revisions| ==> |revisions[i]| == FULL_SHA
    ensures |members| == |pins|
    ensures forall i :: 0 <= i < |pins| ==> members[i] == PinnedMember(id, |pins| > 1, pins[i], revisions[i])
  {
    seq(|pins|, i requires 0 <= i < |pins| => PinnedMember(id, |pins| > 1, pins[i], revisions[i]))
  }

  /** The four fields of a member are the ones its context's name and its revision generate. */
  predicate Identified(id: string, members: seq<Member>, i: nat)
    requires i < |members|
  {
    && |members[i].revision| == FULL_SHA
    && members[i].branch == SearchRef(id, |members| > 1, members[i].repository, members[i].revision)
    && members[i].graphRef == GraphRef(id, members[i].repository, members[i].revision)
  }

  /** The identity check of a record: full revisions, and exactly the generated names. */
  predicate VerifyIdentity(id: string, members: seq<Member>) {
    forall i :: 0 <= i < |members| ==> Identified(id, members, i)
  }

  /** A record is what it claims to be exactly when each member has a full revision, a graph name that
      spells out repository, id and the revision's first twelve characters, and a search ref that
      names the repository only where there are several. */
  lemma IdentityExactly(id: string, members: seq<Member>)
    ensures VerifyIdentity(id, members) <==>
              forall m :: m in members ==>
                && |m.revision| == 40
                && m.graphRef == "vacmcp-" + m.repository + "-" + id + "-" + m.revision[..12]
                && m.branch == "vacmcp/" + (if |members| == 1 then "" else m.repository + "-") + id + "-" + m.revision[..12]
  {
    forall m | m in members && |m.revision| == 40
      ensures SearchRef(id, |members| > 1, m.repository, m.revision) ==
              "vacmcp/" + (if |members| == 1 then "" else m.repository + "-") + id + "-" + m.revision[..12]
    {
      assert "vacmcp/" + (m.repository + "-") + id + "-" + m.revision[..12] == "vacmcp/" + m.repository + "-" + id + "-" + m.revision[..12];
      assert "vacmcp/" + "" + id + "-" + m.revision[..12] == "vacmcp/" + id + "-" + m.revision[..12];
    }
    if VerifyIdentity(id, members) {
      forall m | m in members ensures GeneratedNames(id, members, m) {
        var i :| 0 <= i < |members| && members[i] == m;
        assert Identified(id, members, i);
      }
    }
    if forall m :: m in members ==> GeneratedNames(id, members, m) {
      forall i | 0 <= i < |members| ensures Identified(id, members, i) {
        assert GeneratedNames(id, members, members[i]);
      }
    }
  }

  ghost predicate GeneratedNames(id: string, members: seq<Member>, m: Member) {
    && |m.revision| == 40
    && m.graphRef == "vacmcp-" + m.repository + "-" + id + "-" + m.revision[..12]
    && m.branch == "vacmcp/" + (if |members| == 1 then "" else m.repository + "-") + id + "-" + m.revision[..12]
  }
}
