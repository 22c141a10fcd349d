/** Rebuilding one repository's search refs and index from the records. */
module SearchIndex {
  import opened Text
  import opened Names
  import opened NameOrder
  import opened Lifecycle
  import opened Managed
  import opened Rebuild
  import ManagedInvariant
  import ManagedTheorems
  import ManagedIndexing

  /** What goes wrong outside: a git that fails on some branches, files that cannot be deleted, an
      indexer that fails. */
  datatype Faults = Faults(branches: set<string>, files: set<string>, indexer: bool)

  const SUFFIX := ".zoekt"

  /** The anchored pattern of a repository's shards, as it is matched. */
  predicate MatchesShard(file: string, repository: string) {
    var start := repository + "_v";
    && HasPrefix(file, start) && |file| >= |start| + |SUFFIX| && file[|file| - |SUFFIX|..] == SUFFIX
    && var (version, number, dotted) := Cut(file[|start|..|file| - |SUFFIX|], ".");
       dotted && AllDigits(version) && AllDigits(number)
  }

  lemma ShardMatches(repository: string, version: string, number: string)
    requires AllDigits(version) && AllDigits(number)
    ensures MatchesShard(ShardFile(repository, version, number), repository)
  {
    var file, start := ShardFile(repository, version, number), repository + "_v";
    assert file == start + (version + "." + number) + SUFFIX;
    assert file[|start|..|file| - |SUFFIX|] == version + "." + number;
    assert file[|file| - |SUFFIX|..] == SUFFIX;
    assert HasPrefix(file, start);
    hide Cut;
    CutAtChar(version, ".", number);
  }

  lemma MatchedIsShard(file: string, repository: string)
    requires MatchesShard(file, repository)
    ensures IsShardOf(file, repository)
  {
    hide Cut;
    var start := repository + "_v";
    var middle := file[|start|..|file| - |SUFFIX|];
    CutParts(middle, ".");
    var (version, number, _) := Cut(middle, ".");
    assert file == start + middle + SUFFIX;
    assert file == ShardFile(repository, version, number);
  }

  /** The files the match selects are the repository's shards. */
  lemma MatchIsOwnership(file: string, repository: string)
    ensures MatchesShard(file, repository) <==> IsShardOf(file, repository)
  {
    hide MatchesShard;
    if IsShardOf(file, repository) {
      var version, number :| AllDigits(version) && AllDigits(number) && file == ShardFile(repository, version, number);
      ShardMatches(repository, version, number);
    }
    if MatchesShard(file, repository) {
      MatchedIsShard(file, repository);
    }
  }

  /** Stopped part-way: some of what is wanted is done. */
  ghost predicate RefsPartly(before: map<string, Clone>, after: map<string, Clone>, repository: string, wanted: set<(string, string)>) {
    exists done :: done <= wanted && RefsFollow(before, after, repository, done)
  }

  /** No other repository's file, nor anything that is no shard, was touched. */
  ghost predicate OthersKept(before: map<string, map<string, string>>, after: map<string, map<string, string>>, repository: string) {
    forall file :: !IsShardOf(file, repository) ==>
      (file in after <==> file in before) && (file in after ==> after[file] == before[file])
  }

  ghost predicate NoShards(index: map<string, map<string, string>>, repository: string) {
    forall file :: file in index ==> !IsShardOf(file, repository)
  }

  /** One shard, and in it exactly these branches as the clone has them. */
  ghost predicate OneShard(index: map<string, map<string, string>>, repository: string, shard: string, branches: set<string>, clone: Clone) {
    && clone.Whole? && branches <= clone.refs.Keys
    && (forall file :: file in index && IsShardOf(file, repository) ==> file == shard)
    && shard in index && index[shard] == map b | b in branches :: clone.refs[b]
  }

  class DataDirectory {
    var records: map<string, Record>
    var clones: map<string, Clone>
    /** The index directory: each file with the branches it holds and their revisions. */
    var index: map<string, map<string, string>>

    method PutSearchRef(repository: string, m: Member, faults: Faults) returns (ok: bool)
      requires repository in clones
      modifies this`clones
      ensures clones.Keys == old(clones).Keys
      ensures ok <==> old(clones)[repository].Whole? && m.revision in old(clones)[repository].commits && m.branch !in faults.branches
      ensures ok ==> clones == WithRef(old(clones), repository, (m.branch, m.revision))
      ensures !ok ==> clones == old(clones)
    {
      var clone := clones[repository];
      if clone.Damaged? || m.revision !in clone.commits || m.branch in faults.branches {
        return false;
      }
      clones := clones[repository := clone.(refs := clone.refs[m.branch := m.revision])];
      return true;
    }

    /** Deletes the repository's shards and nothing else. */
    method DropShards(repository: string, faults: Faults) returns (ok: bool)
      modifies this`index
      ensures OthersKept(old(index), index, repository)
      ensures index.Keys <= old(index).Keys
      ensures ok <==> forall file :: file in old(index) && IsShardOf(file, repository) ==> file !in faults.files
      ensures ok ==> NoShards(index, repository)
    {
      hide MatchesShard, IsShardOf;
      var left := index.Keys;
      while left != {}
        invariant left <= old(index).Keys && left <= index.Keys && index.Keys <= old(index).Keys
        invariant OthersKept(old(index), index, repository)
        invariant forall file :: file in old(index) && file !in left && IsShardOf(file, repository) ==>
                    file !in index && file !in faults.files
        decreases |left|
      {
        var file :| file in left;
        left := left - {file};
        MatchIsOwnership(file, repository);
        if MatchesShard(file, repository) {
          if file in faults.files {
            return false;
          }
          index := index - {file};
        }
      }
      return true;
    }

    /** Makes one repository's refs and index agree with its records. */
    method IndexRepository(repository: string, shard: string, faults: Faults) returns (ok: bool)
      requires IsShardOf(shard, repository)
      modifies this
      ensures records == old(records)
      ensures OthersKept(old(index), index, repository)
      ensures repository !in old(clones) ==> clones == old(clones) && (ok ==> NoShards(index, repository))
      ensures ok && repository in old(clones) ==>
                var wanted := Wanted(records, repository);
                && RefsFollow(old(clones), clones, repository, wanted)
                && (wanted == {} ==> NoShards(index, repository))
                && (wanted != {} ==> OneShard(index, repository, shard, Branches(wanted), clones[repository]))
      ensures !ok ==> RefsPartly(old(clones), clones, repository, Wanted(records, repository))
      ensures !ok && repository in old(clones) && Wanted(records, repository) != {} ==> index == old(index)
      ensures repository in old(clones) && Wanted(records, repository) != {} ==>
                (ok <==> && !faults.indexer && old(clones)[repository].Whole?
                         && forall e :: e in Wanted(records, repository) ==>
                              e.1 in old(clones)[repository].commits && e.0 !in faults.branches)
      ensures repository !in old(clones) || Wanted(records, repository) == {} ==>
                (ok <==> forall file :: file in old(index) && IsShardOf(file, repository) ==> file !in faults.files)
    {
      hide AllPut, CanPut, IsShardOf, MatchesShard, Less, RefsFollow, OthersKept, NoShards, OneShard, Branches, Increasing, Wanted, WantedBy, WantedOf, RefsPartly;
      Untouched(clones, index, repository, Wanted(records, repository));
      var ids := SortedKeys(records.Keys);
      if repository !in clones {
        ok := DropShards(repository, faults);
        return;
      }
      var refs: seq<string> := [];
      ghost var done: set<(string, string)> := {};
      NobodyWants(records, repository, ids);
      NothingToPut(clones[repository], faults);
      for i := 0 to |ids|
        invariant records == old(records) && index == old(index) && clones.Keys == old(clones).Keys
        invariant RefsFollow(old(clones), clones, repository, done)
        invariant done == WantedBy(records, repository, ids[..i])
        invariant Lists(refs, done) && AllPut(old(clones)[repository], done, faults)
      {
        var c := records[ids[i]];
        WantedNext(records, repository, ids, i);
        if c.state != Removing {
          NoneOf(c.members, repository);
          for j := 0 to |c.members|
            invariant records == old(records) && index == old(index) && clones.Keys == old(clones).Keys
            invariant RefsFollow(old(clones), clones, repository, done)
            invariant done == WantedBy(records, repository, ids[..i]) + WantedOf(c.members[..j], repository)
            invariant Lists(refs, done) && AllPut(old(clones)[repository], done, faults)
          {
            var m := c.members[j];
            WantedOfNext(c.members, repository, j);
            if m.repository != repository || m.branch == "" {
              continue;
            }
            PutsNext(old(clones), clones, repository, done, (m.branch, m.revision), faults);
            var put := PutSearchRef(repository, m, faults);
            if !put {
              WantedSoFar(records, repository, ids, i, j);
              WantedToo(records, repository, ids[i], j);
              CannotPut(old(clones)[repository], Wanted(records, repository), (m.branch, m.revision), faults);
              PartlyDone(old(clones), clones, repository, done, Wanted(records, repository));
              return false;
            }
            OneRefMore(old(clones), clones, repository, m, done, refs);
            done := done + {(m.branch, m.revision)};
            refs := refs + [m.branch];
          }
          assert c.members[..|c.members|] == c.members;
        }
      }
      assert ids[..|ids|] == ids;
      AllWanted(records, repository, ids);
      PartlyDone(old(clones), clones, repository, done, Wanted(records, repository));
      NothingListed(refs, done);
      EveryPut(old(clones)[repository], done, faults);
      if |refs| == 0 {
        ok := DropShards(repository, faults);
        return;
      }
      if faults.indexer {
        return false;
      }
      AllThere(old(clones), clones, repository, done);
      var branches := set b | b in refs;
      assert branches == Branches(done);
      index := Reindexed(index, repository, shard, map b | b in branches :: clones[repository].refs[b]);
      OnlyShard(old(index), repository, shard, branches, clones[repository]);
      return true;
    }
  }

  /** What the indexer leaves: the repository's one shard, in place of those it had. */
  function Reindexed(index: map<string, map<string, string>>, repository: string, shard: string, content: map<string, string>)
    : map<string, map<string, string>>
  {
    (map file | file in index && !MatchesShard(file, repository) :: index[file])[shard := content]
  }

  /** git writes the ref: the clone is whole and has the commit, and nothing goes wrong on the branch. */
  predicate CanPut(clone: Clone, e: (string, string), faults: Faults) {
    clone.Whole? && e.1 in clone.commits && e.0 !in faults.branches
  }

  ghost predicate AllPut(clone: Clone, done: set<(string, string)>, faults: Faults) {
    forall e :: e in done ==> CanPut(clone, e, faults)
  }

  lemma NothingToPut(clone: Clone, faults: Faults)
    ensures AllPut(clone, {}, faults)
  {}

  /** The refs written so far change nothing about whether the next one can be. */
  lemma PutsNext(before: map<string, Clone>, mid: map<string, Clone>, repository: string, done: set<(string, string)>, e: (string, string), faults: Faults)
    requires RefsFollow(before, mid, repository, done) && repository in before && AllPut(before[repository], done, faults)
    ensures repository in mid
    ensures CanPut(before[repository], e, faults) <==> mid[repository].Whole? && e.1 in mid[repository].commits && e.0 !in faults.branches
    ensures CanPut(before[repository], e, faults) ==> AllPut(before[repository], done + {e}, faults)
  {}

  lemma CannotPut(clone: Clone, wanted: set<(string, string)>, e: (string, string), faults: Faults)
    requires e in wanted
    ensures !CanPut(clone, e, faults) ==> !(clone.Whole? && forall e :: e in wanted ==> e.1 in clone.commits && e.0 !in faults.branches)
  {}

  lemma EveryPut(clone: Clone, done: set<(string, string)>, faults: Faults)
    requires AllPut(clone, done, faults)
    ensures done != {} ==> clone.Whole? && forall e :: e in done ==> e.1 in clone.commits && e.0 !in faults.branches
  {
    if e :| e in done { assert CanPut(clone, e, faults); }
  }

  lemma WantedToo(records: map<string, Record>, repository: string, id: string, j: nat)
    requires id in records && records[id].state != Removing && j < |records[id].members|
    ensures var m := records[id].members[j]; m.repository == repository && m.branch != "" ==> (m.branch, m.revision) in Wanted(records, repository)
  {}

  ghost predicate Lists(refs: seq<string>, done: set<(string, string)>) {
    forall b :: b in refs <==> b in Branches(done)
  }

  // ---------------------------------------------------------------- steps of the rebuild

  lemma Untouched(clones: map<string, Clone>, index: map<string, map<string, string>>, repository: string, wanted: set<(string, string)>)
    ensures RefsFollow(clones, clones, repository, {}) && RefsPartly(clones, clones, repository, wanted)
    ensures OthersKept(index, index, repository)
  {
    FollowsNothing(clones, repository);
  }

  lemma OneRefMore(before: map<string, Clone>, after: map<string, Clone>, repository: string, m: Member, done: set<(string, string)>, refs: seq<string>)
    requires repository in before && repository in after && before.Keys == after.Keys
    requires exists mid: map<string, Clone> ::
               && repository in mid && mid[repository].Whole? && RefsFollow(before, mid, repository, done)
               && after == WithRef(mid, repository, (m.branch, m.revision))
    requires Lists(refs, done)
    ensures RefsFollow(before, after, repository, done + {(m.branch, m.revision)})
    ensures Lists(refs + [m.branch], done + {(m.branch, m.revision)})
  {
    var e := (m.branch, m.revision);
    var mid: map<string, Clone> :| repository in mid && mid[repository].Whole? && RefsFollow(before, mid, repository, done) && after == WithRef(mid, repository, e);
    FollowsOneMore(before, mid, repository, e, done);
  }

  lemma PartlyDone(before: map<string, Clone>, after: map<string, Clone>, repository: string, done: set<(string, string)>, wanted: set<(string, string)>)
    requires RefsFollow(before, after, repository, done) && done <= wanted
    ensures RefsPartly(before, after, repository, wanted)
  {}

  lemma NothingListed(refs: seq<string>, done: set<(string, string)>)
    requires Lists(refs, done)
    ensures refs == [] <==> done == {}
  {
    if d :| d in done { assert d.0 in Branches(done); }
    if refs != [] { assert refs[0] in Branches(done); }
  }

  lemma OnlyShard(index: map<string, map<string, string>>, repository: string, shard: string, branches: set<string>, clone: Clone)
    requires IsShardOf(shard, repository) && clone.Whole? && branches <= clone.refs.Keys
    ensures var after := Reindexed(index, repository, shard, map b | b in branches :: clone.refs[b]);
            OneShard(after, repository, shard, branches, clone) && OthersKept(index, after, repository)
  {
    hide MatchesShard, IsShardOf;
    forall file ensures MatchesShard(file, repository) <==> IsShardOf(file, repository) { MatchIsOwnership(file, repository); }
  }

  // ---------------------------------------------------------------- what the records want so far

  function WantedOf(members: seq<Member>, repository: string): set<(string, string)> {
    set m | m in members && m.repository == repository && m.branch != "" :: (m.branch, m.revision)
  }

  function WantedBy(records: map<string, Record>, repository: string, ids: seq<string>): set<(string, string)> {
    set id, m | id in ids && id in records && records[id].state != Removing && m in records[id].members &&
                m.repository == repository && m.branch != "" :: (m.branch, m.revision)
  }

  lemma WantedOfNext(members: seq<Member>, repository: string, j: nat)
    requires j < |members|
    ensures WantedOf(members[..j + 1], repository) == WantedOf(members[..j], repository) +
              if members[j].repository == repository && members[j].branch != "" then {(members[j].branch, members[j].revision)} else {}
  {
    assert members[..j + 1] == members[..j] + [members[j]];
  }

  lemma WantedNext(records: map<string, Record>, repository: string, ids: seq<string>, i: nat)
    requires i < |ids| && ids[i] in records
    ensures WantedBy(records, repository, ids[..i + 1]) == WantedBy(records, repository, ids[..i]) +
              if records[ids[i]].state == Removing then {} else WantedOf(records[ids[i]].members, repository)
  {
    assert ids[..i + 1] == ids[..i] + [ids[i]];
  }

  lemma WantedSoFar(records: map<string, Record>, repository: string, ids: seq<string>, i: nat, j: nat)
    requires i < |ids| && ids[i] in records && j <= |records[ids[i]].members| && records[ids[i]].state != Removing
    ensures WantedBy(records, repository, ids[..i]) + WantedOf(records[ids[i]].members[..j], repository) <= Wanted(records, repository)
  {}

  lemma AllWanted(records: map<string, Record>, repository: string, ids: seq<string>)
    requires forall id :: id in ids <==> id in records
    ensures WantedBy(records, repository, ids) == Wanted(records, repository)
  {}

  lemma NobodyWants(records: map<string, Record>, repository: string, ids: seq<string>)
    ensures WantedBy(records, repository, ids[..0]) == {} && Lists([], {})
  {}

  lemma NoneOf(members: seq<Member>, repository: string)
    ensures WantedOf(members[..0], repository) == {}
  {}

  // ---------------------------------------------------------------- agreement

  lemma RecordsInOrder(home: ManagedInvariant.Homes, w: World)
    requires ManagedInvariant.Inv(home, w)
    ensures ManagedInvariant.GlobalOk(home, w) && ManagedInvariant.NamesApart(w.records)
    ensures forall id :: id in w.records ==> ManagedInvariant.WellFormed(home, id, w.records[id].members)
  {
    hide ManagedInvariant.LocalOk, ManagedInvariant.WellFormed;
  }

  /** When records are as every reachable state has them, a rebuild that succeeds leaves each ref and
      each branch of the shard at the one revision its record pins, whatever was there before, and
      the shard holds the branches of no other record. */
  lemma IndexAgrees(home: ManagedInvariant.Homes, w: World, repository: string, shard: string,
                    before: map<string, Clone>, after: map<string, Clone>, index: map<string, map<string, string>>)
    requires ManagedTheorems.Reachable(home, w)
    requires repository in before && Wanted(w.records, repository) != {}
    requires RefsFollow(before, after, repository, Wanted(w.records, repository))
    requires OneShard(index, repository, shard, Branches(Wanted(w.records, repository)), after[repository])
    ensures forall id, m :: id in w.records && w.records[id].state != Removing && m in w.records[id].members && m.repository == repository ==>
              && m.branch in after[repository].refs && after[repository].refs[m.branch] == m.revision
              && m.branch in index[shard] && index[shard][m.branch] == m.revision
    ensures forall b :: b in index[shard] ==> (b, index[shard][b]) in Wanted(w.records, repository)
  {
    hide ManagedInvariant.Inv, ManagedInvariant.GlobalOk, ManagedInvariant.AllWellFormed, IsShardOf, VerifyIdentity;
    ManagedTheorems.ReachableInv(home, w);
    RecordsInOrder(home, w);
    var wanted := Wanted(w.records, repository);
    var refs := after[repository].refs;
    forall id, m | id in w.records && w.records[id].state != Removing && m in w.records[id].members && m.repository == repository
      ensures m.branch in refs && refs[m.branch] == m.revision && m.branch in index[shard] && index[shard][m.branch] == m.revision
    {
      assert ManagedInvariant.WellFormed(home, id, w.records[id].members);
      var e := (m.branch, m.revision);
      assert e in wanted && e.0 in Branches(wanted);
      ManagedIndexing.WantedFunctional(home, w.records, repository, e, (m.branch, refs[m.branch]));
    }
  }
}
