# Version-aware code contexts, verified

vacmcp answers questions about source code at pinned revisions. In managed mode it also builds what it
answers from: it clones repositories and, for each *context* (one or more repositories, each pinned to
one commit), makes a worktree, a search ref, a branch in the repository's search shard and a call graph.
This project models that machinery and the parsers and comparisons around it, and proves what the
comments and documentation of the code promise about them. Every module is ordinary Dafny and
`dafny verify dfyconfig.toml` checks all of them.

## What is modelled

**The managed data directory** (`Lifecycle`, `Managed*`). `Managed.World` is everything on disk that the
commands share (records, repositories, clones with their refs, worktrees, shards, graphs) and the
processes at work on it, each with a program counter. `Managed.Apply` is one step of one process: taking
a lock, one call of a tool with whatever outcome, one record write, or dying, which drops the locks. Runs
are arbitrary sequences of such steps by any number of processes: create, retry, remove, repo add, repo
sync, repo remove and managed servers. `ManagedInvariant.Inv` is proved inductive, and the theorems follow
from it. Where each step comes from:

- `DoCheck`: managed/context.go:199-236 (create), 388-440 (retry), 665-690 (remove);
  `DoWrite`: managed/context.go:76-104; `AfterWrite` and the stages: managed/context.go:310-361
- `DoPrepare`, `DoDropTree`, `DoDropGraph`: managed/source.go:50-90, 251-274; `DoGraph`: managed/source.go:221-244
- `DoIndex`, `DoDropRef`: managed/search.go:33-133; `DoVerify`: managed/context.go:487-524
- `ActRepository`, `ActClone`, `ActFetch`: managed/repository.go:49-76, 155-182, 232-256
- `ActServer`, `TakeLock`, `Start`: cmd/vacmcp/main.go:142-152, managed/lock.go:49-190

`ManagedCommands` has the context commands as they are written, in stages and loops over the members, and
proves that everything they do is a run of these steps.

Two premises are needed that the code does not establish; `ManagedInvariant.Disciplined` states them, and
`ManagedPremises` shows by a concrete run or step what goes wrong without each:

- an id is always created over the same set of repositories (`home`), because locks are per repository
  and not per id;
- the branch and graph names generated for a new record are not those of another record, because names
  may contain `-`.

A third is about git, and is built into `ActFetch`: a fetch only adds commits. After a force-push git's own
collection could in time drop a commit that no ref and no worktree holds, so one that only a FAILED context
pins; the model takes it that a commit a record pins is not collected while the record is there.

**The lock itself** (`Locks`): goroutines of several processes, a mutex and a file lock per repository,
taken in order and given back in reverse. **The persistent graph session** (`Session`,
`SessionProvider`): a class whose methods are the critical sections, proved against a transition system
over which the claims are proved for every interleaving. **Rebuilding an index** (`SearchIndex`) and
**asking for a graph** (`GraphPaging`) in the code's own loops, with tools that fail. **Call graphs**
(`CallGraph`, `CompareCalls`), **readers** (`UnifiedDiff`, `History`, `Query`, `RepositoryPath`) and **two-spelling
formats** (`Config`, `ServerConfig`, `ContextRecord`, `AtomicWrite`), over the string functions of `Text`,
the names of `Names` and the order of `NameOrder`.

`Rebuild` says what a rebuild makes of refs and shard and what a whole removal leaves, and
`ManagedRepository` what an add, a sync and a removal of a repository come to, and when a removed one stays removed.

Where code and comments differ, the model follows the code, and says exactly when the comment holds:

- `atomicWrite` (store/store.go:548-588) says that a write that fails leaves the file as it was; when only
  the flush of the directory fails, the new record is already in place. `AtomicWrite.FailedYetFiled` is the
  input, `AtomicWrite.StoppedLeaves` the condition.
- `repo sync` (managed/repository.go:129-182) reads the record before it takes the lock and writes it
  afterwards, so a sync that was waiting for a `repo remove` files the removed repository again, as FAILED.
  `ManagedRepository.SyncFilesRemoved` is the run, `ManagedRepository.GoneExactlyWhen` the condition.
- The separators of `git log` output are said to be impossible in a message, an author or a path
  (adapters/git/history.go:30-36); git does not forbid them in the first two. Authors and paths are trimmed,
  and may begin or end in white space. And without `-z` git prints a name that holds a byte outside printable
  ASCII, a quote or a backslash in quotes and escaped, which is what is reported and compared with the path
  asked for. `History.SeparatedMessage`, `History.SeparatedAuthor`, `History.SpacedPath` and
  `History.QuotedName` are the inputs, `History.RoundTripExactly` the condition.
- Removing one context is said to leave the others alone (managed/context.go:625-638); it takes the graph of
  another whose graph name is the same. `ManagedPremises.HyphensLoseGraph` is the run,
  `Rebuild.RemovalSparesByName` the condition.
- A record whose repository is `null` (store/store.go:216-231) is read as one member without a name;
  `ContextRecord.NamesNothing` says exactly when that happens.

## Model

| member | source | states |
|---|---|---|
| ManagedSafety.StepInv | managed/context.go:142-712 | every step any process can take, every tool failure and every death at any point keep the invariant: records well formed with distinct names, members backed, READY built, no orphan artifact, exclusive locks, a server alone |
| ManagedTheorems.ReachableInv | managed/lock.go:143-190 | the invariant holds in every state reachable from an empty data directory |
| ManagedTheorems.ReadyMeansBuilt | managed/context.go:487-524 | READY means built: in every reachable state each member of a READY record has its worktree, its ref, its branch in the shard and its graph, at the recorded revision |
| ManagedTheorems.SnapshotSafe | cmd/vacmcp/main.go:142-152 | as long as a managed server serves, exactly the contexts it read are READY, unchanged, with all artifacts standing, and nobody else holds the data directory's lock |
| ManagedTheorems.NoStrandedContext | managed/repository.go:210-256 | every member of every record names a repository with a record and a whole clone that has the pinned commit |
| ManagedTheorems.NoOrphans | managed/context.go:639-712 | every worktree, graph, ref and shard branch is named by a record |
| ManagedTheorems.MutualExclusion | managed/lock.go:49-71 | no two processes are inside one repository's lock |
| ManagedHistory.StepImmutable | managed/context.go:58-104 | members and revisions of a record never change, its state moves along the machine or by a retry's restart, REMOVING and READY are left only as allowed, and a record is deleted only out of REMOVING |
| ManagedHistory.RunImmutable | managed/context.go:58-104 | over runs of any length, from each state to the next: the same members, a move the machine or a retry's restart allows, REMOVING kept, READY kept or left for REMOVING |
| ManagedHistory.RunDeletes | managed/context.go:639-712 | a record that is gone at the end of a run was there, with its members, up to a state in which it was REMOVING and a removal of it took its last step |
| ManagedHistory.OthersUndisturbed | managed/search.go:73-133 | whatever one process does, a context it is not working on keeps worktree and graph, stays searchable if it was, and stays gone where a removal took it away |
| ManagedHistory.RemovalMonotone | managed/search.go:90-99 | while a record is REMOVING nothing anybody does puts back an artifact of it that is gone |
| ManagedHistory.RunStaysGone | managed/context.go:639-712 | the same over runs of any length, with crashes and reruns of the removal |
| ManagedHistory.RemoveLeavesNothing | managed/context.go:639-712 | a removal that succeeds leaves no record, worktree, graph, ref or shard branch of its context |
| ManagedRecovery.GoesFurther | managed/context.go:388-469 | at every point of a build or a removal, whatever earlier runs left, there is an answer of the tools that takes it further towards its end |
| ManagedRecovery.SuccessGoesFurther | managed/context.go:310-361 | every answer that is a success takes it further: with the same members, closer, or finished |
| ManagedRecovery.FailureStops | managed/context.go:310-361 | and every call of a tool that fails stops it: a removal or a clean-up ends there, a build goes to FAILED, and no record has changed yet |
| ManagedRecovery.VerifiesExactly | managed/context.go:487-524 | verifying a member goes on exactly when nothing failed and commit, checkout, ref, shard and graph are as recorded, and at the last one the names are the generated ones; otherwise FAILED is next |
| ManagedRecovery.SuccessfulRunFinishes | managed/context.go:310-361 | in every disciplined run, whatever all others start, fail at and die of: a build or a removal that is not killed and whose tools succeed is still at it with the same members, and closer once it has acted, or at some point of the run has finished, READY at its members or its record gone |
| ManagedRecovery.EndsAmongOthers | managed/context.go:388-469 | the same for the whole of a command from its start on: under way, or at some point gone, and then a retried context is READY unless somebody took it away, a removed record is gone, a created id recorded unless a repository is missing |
| ManagedRecovery.RetryRecovers | managed/context.go:388-469 | from every state that satisfies the invariant there is a run - the processes in the way die, one retry does the rest - that ends READY at exactly the recorded members and revisions |
| ManagedRecovery.RemoveConverges | managed/context.go:639-712 | from every such state a removal can be finished in the same way, however often it was interrupted |
| ManagedRecovery.CreateSucceeds | managed/context.go:142-254 | and a create with a free id, commits to pin and names nobody has ends READY over exactly its pins, and built |
| ManagedProgress.NoDeadlock | managed/lock.go:73-98 | in every reachable state with a process left, some process can take a step of its own |
| ManagedProgress.ServerComesUp | cmd/vacmcp/main.go:142-152 | with no command at work and nothing served, a server comes up and serves exactly the READY records |
| ManagedPremises.OneIdTwoHomes | managed/context.go:142-254 | without one home per id: two creates of one id over two repositories, both allowed, and the second overwrites the first one's record with other members |
| ManagedPremises.HyphenFreeApart | managed/context.go:760-774 | ids and repositories without hyphens keep all generated names apart |
| ManagedPremises.ReadyReachable | managed/context.go:142-254 | READY is reached from an empty data directory, by two adds and a create |
| ManagedPremises.HyphensLoseGraph | managed/context.go:772-774 | a run from an empty data directory: b-c of a is READY and built, c of a-b at the commit they share is filed and removed, and b-c is READY without its graph |
| Rebuild.RemovalSpares | managed/context.go:639-712 | a whole removal leaves another READY context built exactly when no member of the removed one carries the graph name of its own |
| Rebuild.RemovalSparesByName | managed/context.go:760-774 | in terms of the names: exactly when repository and id, joined, are not one text at one short SHA |
| Rebuild.RemovalSparesSearch | managed/search.go:73-133 | what the other is searched by is spared even where the two name one branch: the removal's own rebuild writes the shared ref again |
| Rebuild.RemovalTakes | managed/context.go:639-712 | graphs and worktrees of the removed context are gone; a branch of it is there afterwards exactly when another context wants it |
| ManagedRepository.GoneExactlyWhen | managed/repository.go:129-256 | a repository whose record is gone stays gone over every run that starts no add of it exactly when no add or sync of it was under way |
| ManagedRepository.SyncFilesRemoved | managed/repository.go:129-182 | the run in which a sync that waited for a removal files the repository again, without a clone |
| ManagedRepository.SyncFilesRemovedHappens | managed/repository.go:129-182 | and that from an empty data directory |
| ManagedRepository.SyncOutcome | managed/repository.go:155-182 | a fetch that succeeds adds its commits to the clone, moves no ref, touches nothing else and files READY; one that fails leaves the clone and files FAILED, or nothing when it was cancelled |
| ManagedRepository.AddOutcome | managed/repository.go:49-76 | a clone that succeeds has the commits and no search ref and files READY; one that fails leaves nothing new or a damaged directory, never over one that was there, and files FAILED |
| ManagedRepository.ForgetOutcome | managed/repository.go:210-256 | a removal deletes the clone and then the record; a clone that cannot be deleted is damaged and its record stays |
| ManagedRepository.FilingOutcome | managed/repository.go:155-182 | the last step of each files how it went and touches nothing else |
| ManagedRepository.SyncedCanBePinned | managed/repository.go:155-182 | what a sync is for: a run from any state of the invariant in which a repository is synced and a create over pins that need the fetched commits ends READY on exactly them, and built |
| ManagedCommands.Command.Create | managed/context.go:142-254 | a create run call by call: refused, with nothing changed, for an id that exists or a repository without a record; READY over exactly the pins at exactly the revisions they resolved to, under the generated names and verified, or FAILED; nothing touched unless the record is filed; every call a step of the system. It succeeds only if no tool failed, and in a directory in order, when it is not refused and its names are nobody else's, whenever no tool failed |
| ManagedCommands.FiledFirst | managed/context.go:229-238 | the record first, the artifacts after: at every point of a create either its record is filed or no artifact has been touched |
| ManagedCommands.Command.Retry | managed/context.go:388-469 | a retry run call by call: refused for READY and REMOVING, otherwise READY at the same members and verified, FAILED, or unchanged; every call a step of the system. It succeeds only if no tool failed, and in a directory in order, when it is not refused, whenever no tool failed |
| ManagedCommands.Command.Remove | managed/context.go:639-712 | a removal run call by call: on success record, graphs and worktrees are gone, refs dropped and every repository rebuilt from the other records; otherwise the record is REMOVING with the same members; every call a step of the system. It succeeds only if no tool failed, and in a directory in order, for an id there is, whenever no tool failed |
| ManagedCommands.Command.BuildContext | managed/context.go:310-361 | stage by stage over all members, with the first failure recorded: READY and every member verified, or FAILED, and no other record touched; in a directory in order READY exactly when no tool failed |
| ManagedCommands.Command.PrepareSource | managed/source.go:50-72 | one call: the checkout is there at the revision exactly when the call did not fail, nothing was in its place and the clone has the commit; a failed call leaves in that place whatever it left |
| ManagedCommands.Command.IndexGraph | managed/source.go:221-244 | one call: the graph is that of the member's checkout exactly when the call did not fail and there is a checkout; a failed call leaves under that name whatever it left |
| ManagedCommands.Command.VerifyMember | managed/context.go:487-524 | one member passes exactly when nothing failed and everything of it stands as recorded; nothing is changed |
| ManagedCommands.Command.DeleteGraph | managed/source.go:251-274 | one call: refused without one in a retry of a repository that is not managed; otherwise the graph is gone exactly when the call did not fail |
| ManagedCommands.Command.DiscardMembers | managed/source.go:74-90 | on success exactly the members' graphs and worktrees are gone, and in a removal exactly their refs |
| ManagedCommands.Command.IndexRepository | managed/search.go:73-133 | one rebuild as steps of the system: on success the wanted refs at wanted revisions over those there were, and a shard of exactly those or none; no other repository touched |
| ManagedCommands.Command.IndexRepositories | managed/context.go:333-340 | every repository of the context rebuilt so, and no other touched |
| ManagedCommands.Command.VerifyContext | managed/context.go:487-524 | passes only when every artifact of every member is what the record says and the names are the generated ones |
| ManagedCommands.Command.Advance | managed/context.go:76-82 | refused exactly off the machine; otherwise the next state is in hand and on disk |
| ManagedCommands.Command.Fail | managed/context.go:92-97 | the context is FAILED in hand and on disk |
| ManagedCommands.WhatCommandsLeave | managed/context.go:142-712 | wherever a command is or ended: of a data directory in order it leaves one in order, a create too when its names are fresh as it files; a context it leaves READY is built, and an id without a record has no worktree |
| ManagedCommands.OwnActsDisciplined | managed/context.go:142-712 | what one retry or removal does keeps the discipline by itself, and what a create does when its names are fresh at the filing write |
| Lifecycle.Position | managed/context.go:15-30 | the place of a state on the path a context is built along; FAILED and REMOVING have none |
| Lifecycle.AdvancesExactly | managed/context.go:55-68 | the moves there are, one by one |
| Lifecycle.IdentityExactly | managed/context.go:526-570 | a record passes the identity check exactly when each member has a full revision and the two names spelled out of repository, id and its first twelve characters |
| ManagedCommands.PinsAreNamed | managed/context.go:214-236 | the members a create pins are over exactly its pins, in order, and pass the identity check |
| ManagedSteps.PinnedWellFormed | managed/context.go:214-236 | and make a well-formed record: different repositories and graph names, a branch each |
| Locks.StepInv | managed/lock.go:49-98 | every step of every goroutine and every kill keeps mutexes and file locks exclusive and within each list's order |
| Locks.OneInside | managed/lock.go:29-71 | nobody else is inside: two goroutines running under their lists, in one process or two, share no repository |
| Locks.SetOfLocks | managed/lock.go:87-98 | what is locked depends on the set of repositories alone, not on order or repetition |
| Locks.NoDeadlock | managed/lock.go:73-98 | with any number of goroutines and any lists, someone can step |
| Locks.ScheduleUsesUp | managed/lock.go:87-98 | every schedule uses up exactly what is left to do, so with the above every operation gets in and out again whatever the schedule |
| NameOrder.Insert | managed/lock.go:88-88 | one name put into a strictly increasing list, once |
| NameOrder.LessWhere | managed/lock.go:88-88 | the order is that of the first character in which two names differ, a name coming before its extensions |
| NameOrder.LockNamesCanonical | managed/lock.go:88-88 | two lists of the same names lock the same sequence |
| NameOrder.IncreasingUnique | managed/lock.go:75-86 | a strictly increasing list is determined by its elements |
| Names.GraphRefClash | managed/context.go:772-774 | exactly when two members anywhere get one graph name |
| Names.GraphRefDetermines | managed/context.go:772-774 | within one repository the graph name determines id and short SHA |
| Names.SearchRefDetermines | managed/context.go:760-765 | within one repository and one arity class the search ref determines id and short SHA |
| Names.SearchRefClash | managed/context.go:760-765 | across the two arity classes two refs of a repository are one exactly when the single context's id is the repository and the other id |
| Names.GraphRefRecovers | managed/context.go:772-774 | for repositories without hyphens a graph name determines repository, id and short SHA |
| Names.HyphensClash | managed/context.go:772-774 | valid names with hyphens for which two members of two repositories get one graph name |
| Names.GraphRefTellsRepository | managed/context.go:772-774 | within one context the graph names tell the repositories apart |
| Names.OneOwner | managed/search.go:144-158 | a shard file belongs to at most one repository |
| Names.ValidNameExactly | store/store.go:466-490 | a name is valid exactly when it is 1 to 100 of the listed characters and begins with a letter or a digit |
| Names.ValidNameIsElement | store/store.go:466-472 | so it is one element of a path |
| Session.StepInv | adapters/cbm/backend.go:126-260 | every step of every caller, attempt, retirement and shutdown keeps the invariant |
| Session.SingleOwner | adapters/cbm/backend.go:126-260 | at most one attempt in flight and none beside a session, no session closed twice, every session not closed in exactly one place |
| Session.NeverOverwritten | adapters/cbm/backend.go:177-235 | a live session leaves the provider only by being retired and closed or taken out by a Close, leaving an empty place |
| Session.FallsBackOnFailureOnly | adapters/cbm/backend.go:177-210 | the one-shot fallback is set only by an attempt that failed and was not abandoned |
| Session.FailureIsForGood | adapters/cbm/backend.go:177-210 | after an attempt that failed by itself no run has a session or begins another attempt |
| Session.RetiredIsClosed | adapters/cbm/backend.go:212-223 | in every reachable state a session that is retired leaves the provider and is closed once, and retiring one that is not the session changes nothing |
| Session.RetiredForGood | adapters/cbm/backend.go:60-90 | a session that was retired is never handed out again, however the provider is used from there |
| Session.UsableAgain | adapters/cbm/backend.go:225-227 | after a Close the next call begins a new attempt, which can bring a session up, unless the provider had fallen back |
| Session.CloseCloses | adapters/cbm/backend.go:237-260 | a Close that returns has closed everything opened before it, save what an overlapping Close is still closing; alone, everything opened until it took the session |
| Session.OverlapLeavesOpen | adapters/cbm/backend.go:237-260 | from any state serving a session, two overlapping Close calls of which the second returns with it open |
| Session.OverlapHappens | adapters/cbm/backend.go:237-260 | and that from the start: one attempt, and two Close calls |
| SessionProvider.Provider.Persistent | adapters/cbm/backend.go:126-173 | the lookup that uses the session, goes without, or waits for the one attempt, begun here when needed: which of them when, and what changes of the provider's fields |
| SessionProvider.Provider.Connected | adapters/cbm/backend.go:156-173 | the connector coming back with a session or an error, field by field |
| SessionProvider.Provider.SettleAttempt | adapters/cbm/backend.go:177-210 | settling, field by field: a session that came in time is the session, one that came too late is closed once, a failure by itself sets the fallback and one that was stopped does not |
| SessionProvider.Provider.RetireSession | adapters/cbm/backend.go:215-225 | a broken session is the session no more and closed once, exactly when it still was the session; otherwise nothing changes |
| SessionProvider.Provider.CloseFirst | adapters/cbm/backend.go:237-247 | no attempt may begin any more and the one in flight is abandoned, and nothing else changes |
| SessionProvider.Provider.CloseSecond | adapters/cbm/backend.go:247-256 | the session is taken out still open, and the provider may start again |
| SessionProvider.Provider.CloseLast | adapters/cbm/backend.go:255-260 | the session taken out is closed, once |
| SearchIndex.DataDirectory.IndexRepository | managed/search.go:73-133 | on success the refs are exactly those wanted over those there were, and the repository has one shard with exactly the wanted branches at the clone's revisions, or none; on failure some wanted refs are written and a shard that should exist is as it was; no other repository is touched. With something to index it succeeds exactly when the clone is whole and has every wanted commit, no ref fails and the indexer does not; with nothing, exactly when no shard file refuses to be deleted |
| SearchIndex.DataDirectory.DropShards | managed/search.go:164-175 | deletes exactly the repository's shard files, failing iff one cannot be deleted |
| SearchIndex.DataDirectory.PutSearchRef | managed/search.go:33-35 | writes one ref, refused for a commit the clone does not have |
| SearchIndex.IndexAgrees | managed/search.go:73-133 | in every reachable state a rebuild leaves each ref and shard branch at the one revision its record pins, and no other branch in the shard |
| SearchIndex.MatchIsOwnership | managed/search.go:144-158 | the anchored match selects a file exactly when it is a shard of the repository |
| GraphPaging.VerifyGraph | managed/source.go:113-182 | there is a walk from offset 0 with strictly advancing offsets and at most as many calls as the caller waits for, whose last page allows exactly this verdict |
| GraphPaging.VerdictRests | managed/source.go:155-181 | what each verdict rests on, whatever the engine answers: held was on the last page, not held was on none and no more were promised, and anything that does not get further is of no use |
| GraphPaging.Covered | managed/source.go:155-181 | against an engine that answers honestly the pages cover the list without a gap |
| GraphPaging.VerdictIsTrue | managed/source.go:113-182 | against such an engine the verdict is the truth, and a caller waiting one call more than there are graphs gets it |
| CallGraph.Trace | adapters/cbm/cbm.go:338-352 | every readable name at the least hop its rows say, a row without one saying 0, and no other name |
| CallGraph.HopsDetermined | adapters/cbm/cbm.go:338-352 | the hops depend on the rows alone, not on their grouping or order |
| CallGraph.Locate | adapters/cbm/cbm.go:371-384 | the first row of each reached name, and only reached names |
| CallGraph.Edges | adapters/cbm/cbm.go:396-432 | the sorted list of all calls between neighbouring hops, each as often as it is listed |
| CallGraph.OrderIndependent | adapters/cbm/cbm.go:396-432 | any two sorted lists of the calls are one list, so the order of the maps does not show |
| CallGraph.AllSound | adapters/cbm/cbm.go:386-424 | every edge joins two located nodes one hop apart and is cited at its caller |
| CallGraph.WalksOutward | adapters/cbm/cbm.go:386-424 | a walk along emitted edges gets one hop further with every edge, so there is no cycle |
| CallGraph.ReachedByChain | adapters/cbm/cbm.go:386-424 | if each located node is connected to a located one a hop nearer, each lies on a chain of hop-many emitted edges from the root |
| CallGraph.TraceCalls | adapters/cbm/cbm.go:150-205 | the whole rebuild: root at hop 0, the least hops of the rows, the first row of exactly the located nodes, sound edges, and every call between located neighbours a hop apart among them |
| CallGraph.RootCalls | adapters/cbm/cbm.go:396-424 | a name with a row of hop 1 and none nearer, listed by the root, is called by it in the answer |
| CallGraph.SortedByCaller | adapters/cbm/cbm.go:425-431 | the edges are in the order of their callers and, of one caller, of their callees |
| CallGraph.TraceDetermined | adapters/cbm/cbm.go:150-205 | from end to end: two traces of the same rows and nodes have the same hops, nodes and edges |
| CompareCalls.Group | engine/compare_calls.go:143-158 | one side's call sites by relation, and its relations in first-occurrence order |
| CompareCalls.CiteEdges | engine/compare_calls.go:160-175 | every location once, in first-occurrence order |
| CompareCalls.Classify | engine/compare_calls.go:348-384 | the classification loop gives the relations only the second has, only the first has, and both have |
| CompareCalls.CompareCalls | engine/compare_calls.go:245-384 | which answers are refused and with what, the presence, each side's citations, and the three lists |
| CompareCalls.Partition | engine/compare_calls.go:348-384 | the three lists are duplicate-free and hold exactly the caller, callee and path that only the first has a call of, only the second, and both |
| CompareCalls.SitesRecoverEdges | engine/compare_calls.go:143-158 | a relation's evidence holds each line as often as the side lists it |
| CompareCalls.SitesInOrder | engine/compare_calls.go:143-158 | in the order the side lists them |
| CompareCalls.ListedInOrder | engine/compare_calls.go:348-384 | removed and unchanged relations are listed in the order the first side first calls them, added ones in the second's |
| CompareCalls.Lossless | engine/compare_calls.go:348-384 | from's edges, with multiplicity, are read back from the evidence of removed and unchanged, and to's from that of added and unchanged |
| CompareCalls.SwapSides | engine/compare_calls.go:348-384 | swapping the sides swaps added and removed, in order, with evidence exchanged |
| CompareCalls.SwapUnchanged | engine/compare_calls.go:348-384 | and an unchanged relation carries the same evidence, exchanged |
| CompareCalls.SelfComparison | engine/compare_calls.go:348-384 | comparing a graph with itself finds only unchanged relations, all of them in order |
| CompareCalls.DistinctElements | engine/compare_calls.go:163-175 | a list without its repetitions has the same elements, each once |
| CompareCalls.DistinctOrder | engine/compare_calls.go:163-175 | in the order of their first occurrences |
| UnifiedDiff.ParseDiff | adapters/git/diff.go:120-161 | the reading loop, as the line-by-line function the round trip is about; for any text, unreadable exactly when a line that starts as a hunk header is none, and otherwise refused unless exactly one line starts a file |
| UnifiedDiff.RoundTrip | adapters/git/diff.go:110-216 | reading a written one-file diff gives back change, ranges and lines, counts of 1 spelled or not, with any heading, notes and content |
| UnifiedDiff.OneFileOnly | adapters/git/diff.go:155-161 | rendered diffs are accepted exactly when there is one; otherwise the refusal counts them |
| UnifiedDiff.HeaderRead | adapters/git/diff.go:164-201 | a hunk header gives back its four numbers in every spelling |
| UnifiedDiff.HeaderForm | adapters/git/diff.go:164-201 | and a header that is read at all says its numbers in that form |
| UnifiedDiff.SideExactly | adapters/git/diff.go:189-201 | one side of it is a start alone, counting one line, or a start and a count, and nothing else |
| UnifiedDiff.BodyRead | adapters/git/diff.go:134-141 | the content of a hunk comes back whatever it looks like |
| UnifiedDiff.GitHeadersNeutral | adapters/git/diff.go:142-151 | the other header lines git writes change nothing |
| History.ParseHistory | adapters/git/history.go:162-212 | filtering while reading and stopping at the cap equals reading everything, filtering, then capping |
| History.ReadRecord | adapters/git/history.go:166-210 | one record's entries appended up to the cap, stopping exactly when one more would not fit |
| History.RoundTripExactly | adapters/git/history.go:162-212 | reading what git writes gives one entry per commit and file, in order and under the file's name, exactly when, of commits with files, no author or message holds a separator, no author or name begins or ends in white space and no name is one git quotes, and commits without files leave no piece that is read as anything |
| History.CommitExactly | adapters/git/history.go:162-212 | the same for one commit, in however many pieces its separators leave it |
| History.ReadLegible | adapters/git/history.go:162-212 | short of quoted names, a commit is read whole, under its names as they are printed |
| History.PlainIsSilent | adapters/git/history.go:166-174 | a commit without files whose author and message are plain leaves no piece that is read as anything |
| History.SpacedPath | adapters/git/history.go:190-194 | a file whose name begins with a space is not reported under its name |
| History.QuotedName | adapters/git/history.go:187-209 | a file whose name is an accented e and ".go" is reported under the quoted text of its name, and a query for its name has no answer |
| History.NotFoundByName | adapters/git/history.go:195-201 | and so for every name that holds anything but printable ASCII, over any commits |
| History.PrintedName | adapters/git/history.go:73-88 | what git prints for a name is printable, and is the name exactly when it needs no quoting; a quoted text is longer than the name |
| History.PrintedReadsBack | adapters/git/history.go:73-88 | quoting loses nothing: the printed text reads back as the name, byte for byte |
| History.WantsExactly | adapters/git/history.go:179-201 | an entry is wanted exactly when the trimmed text asked for stands in its message, both in lower case, and its path is the one asked for |
| History.SeparatedMessage | adapters/git/history.go:30-36 | a message that holds either separator is not reported |
| History.SeparatedAuthor | adapters/git/history.go:30-36 | nor is an author whose name holds one |
| History.SmallerIsPrefix | adapters/git/history.go:186-202 | a capped answer is the prefix of one under a larger cap |
| History.FiltersCommute | adapters/git/history.go:162-212 | the message and path filters combine with AND, in either order |
| History.SearchHistory | adapters/git/history.go:47-139 | which queries are refused as invalid, for a negative cap or an unusable path, and which for their repository; otherwise the beginning of everything that was asked for, all of it or as much as the cap or the default allows |
| RepositoryPath.ValidatePath | adapters/git/git.go:246-267 | refuses exactly what is blank, absolute, or steps above the root when walked part by part; what is let through is clean and made of names inside the repository |
| RepositoryPath.CleanSamePlace | adapters/git/git.go:253-265 | and it is the path asked for: walked from any directory, a path and its clean form lead to one place |
| RepositoryPath.ClimbsExactly | adapters/git/git.go:253-265 | a cleaned relative path starts above the root exactly when walking it steps above the root |
| Query.Balanced | adapters/zoekt/zoekt.go:260-277 | accepts bytes exactly when, read with escapes by backslash parity, no group is closed that they did not open and none is left open |
| Query.BytesReadAlike | adapters/zoekt/zoekt.go:260-277 | reading a text by its UTF-8 bytes and by its characters comes to the same |
| Query.ScopedQuery | adapters/zoekt/zoekt.go:237-249 | which queries are refused, and the text of the others, spelled out |
| Query.QuotedReadsLiterally | adapters/zoekt/zoekt.go:248-248 | the repository's name in it is a pattern of that name and no other |
| Query.StaysInGroup | adapters/zoekt/zoekt.go:228-260 | a query is accepted exactly when the adapter's own group is closed first by the adapter's last parenthesis, a final backslash included |
| Query.PaddingNeeded | adapters/zoekt/zoekt.go:233-236 | without the padding a final backslash would take the closing parenthesis |
| Config.Validate | config/config.go:212-299 | accepts exactly the acceptable configurations, and otherwise names the first offence, as an unknown repository exactly when that is a filled member of an undeclared one |
| Config.CheckContext | config/config.go:240-296 | one context: refused unless it is in order itself and agrees with every member met before about graphs, and for an unknown repository exactly when everything before that member is in order |
| Config.AcceptableExactly | config/config.go:212-299 | what is acceptable, field by field |
| Config.OneFirstOffence | config/config.go:212-299 | the context a refusal names is determined by the configuration |
| Config.WorkspaceOf | config/config.go:97-119 | one declaration folded, refused exactly when it uses both spellings |
| Config.Load | config/config.go:163-207 | loads exactly the unambiguous files whose configuration is acceptable, and names the first conflict otherwise |
| Config.Marshal | config/config.go:129-154 | every context in the spelling its member count decides |
| Config.MarshalLoad | config/config.go:129-207 | loading what was written gives the configuration back exactly when it was acceptable and its contexts carry the ids they are filed under |
| Config.LoadedOnceForAll | config/config.go:129-207 | whatever file was loaded, writing and loading again changes nothing |
| Config.OneMeaning | config/config.go:84-119 | two declarations mean one workspace exactly when they name the same scopes, inline or listed |
| ServerConfig.ReadyContexts | cmd/vacmcp/managed.go:48-60 | the ids of the READY records, in order |
| ServerConfig.ManagedConfig | cmd/vacmcp/managed.go:71-130 | what is served is exactly the READY records; refused exactly when that is not acceptable, and not loaded when nothing is READY |
| ServerConfig.CommittedFields | cmd/vacmcp/managed.go:71-130 | repository, branch, revision and graph of each served member are the record's, and its clone is where it is looked for |
| ServerConfig.ServedIffGraphsApart | cmd/vacmcp/managed.go:71-130 | for records that pass the identity check the configuration is accepted exactly when no two repositories share a graph name |
| ServerConfig.ReachableServed | cmd/vacmcp/managed.go:71-130 | in every reachable state the configuration of a server's snapshot is accepted |
| ServerConfig.ReachableNamed | managed/context.go:172-181 | in every reachable state every id and every repository is a valid name, one element of a path, and no id holds two dots in a row |
| ContextRecord.Receiver.Unmarshal | store/store.go:192-232 | decoding overwrites the receiver with what the tree means; a refused record leaves its members |
| ContextRecord.EncodeDecode | store/store.go:168-232 | decoding an encoding gives the context back exactly when it names a repository |
| ContextRecord.EncodedFields | store/store.go:168-186 | the written record field by field, in either spelling |
| ContextRecord.OneSpelling | store/store.go:192-232 | which trees are read: a list alone or a repository alone |
| ContextRecord.NamesNothing | store/store.go:216-231 | a record read without a list names no repository exactly when its repository is null or the empty text; such a context cannot be filed |
| ContextRecord.ReadOnceForAll | store/store.go:168-232 | however a record was spelled, rewriting what was read changes nothing |
| ContextRecord.SingleReadsOne | store/store.go:141-186 | a decoder that reads the repository as a string accepts exactly the one-member encodings |
| ContextRecord.SingleCarriesOver | store/store.go:135-232 | what such a writer wrote is read here and written back as it was |
| ContextRecord.ListAloneMisleads | store/store.go:141-232 | without the empty list in the repository field a several-member record would be read by it as naming no repository |
| ContextRecord.Store.PutContext | store/store.go:391-410 | files exactly the contexts with usable names and at least one member, and changes nothing else |
| ContextRecord.Store.GetContext | store/store.go:414-427 | a filed record is read back under its own id |
| ContextRecord.Store.DeleteContext | store/store.go:438-454 | forgets that record only |
| AtomicWrite.SoundStep | store/store.go:558-588 | any interleaving of writers, failures and kills keeps temporary files apart and records whole |
| AtomicWrite.OldOrNew | store/store.go:526-588 | a listing changes at the rename only, and then to the whole new body |
| AtomicWrite.NeverTorn | store/store.go:526-588 | every record of every reachable directory is whole and a body someone set out to file under that name |
| AtomicWrite.StoppedLeaves | store/store.go:548-588 | a writer that fails or is killed, beside whatever else is on the disk, has left the records as they were exactly when it stopped before its rename, or the record already was what it wrote; one that failed has taken its temporary file away, one that was killed has left it |
| AtomicWrite.Finishes | store/store.go:548-588 | a writer that nothing stops has replaced the record and left nothing else behind |
| AtomicWrite.FailedYetFiled | store/store.go:548-588 | from an empty directory, a writer whose last flush fails has filed its record |
| AtomicWrite.Linearizes | store/store.go:526-588 | however writers and deleters are interleaved, fail and are killed, a listing is what the renames and deletions in their order make of the one before |
| AtomicWrite.UntouchedBefore | store/store.go:548-588 | a record no writer of which got to its rename, and nobody deleted, is as it was |
| Text.SplitJoin | adapters/git/history.go:166-174 | splitting undoes joining when no piece holds the separator |
| Text.SplitNJoin | adapters/git/history.go:170-174 | splitting off n pieces undoes joining when only the last may hold the separator |
| Text.CutAt | adapters/git/diff.go:166-201 | cutting at a separator where it first occurs |
| Text.AtoiItoa | adapters/git/diff.go:189-201 | a number in range is read back from its decimal text |
| Text.AtoiSigned | adapters/git/diff.go:189-201 | with a sign, and beyond the machine's integers, where it is refused |
| Text.Utf8Decoded | adapters/zoekt/zoekt.go:260-277 | the bytes of a character decode to it and are the fewest |
| Text.TrimSpaceEmpty | config/config.go:213-220 | trimming leaves nothing exactly when there is only white space |

## Left out

- ManagedSafety.StepInv: assumes the two premises of `Disciplined`; the code checks neither.
- ManagedCommands.Command.Create: as methods, it, Retry and Remove run alone, with their locks taken; what
  other processes do in between, and dying half-way, is in the step relation their calls are steps of.
  Reading a set of records under a lock is one step, and a record write that fails is a process that ends
  before it.
- `repo add`, `repo sync` and `repo remove` are steps of the system and not methods; a sync of several
  repositories is one process for each, as it never holds two locks.
- Tools outside: git, the indexer and the graph engine are steps that have their documented effect or fail.
  A failing indexer leaves the shard as it was, children die with their process, and nobody else edits the
  data directory.
- ManagedRecovery.RetryRecovers: says that the run exists; SuccessfulRunFinishes and EndsAmongOthers speak of
  every run in which the command is not killed and its tools succeed. Fairness among waiters for a lock is not
  modelled.
- Locks on systems other than Unix, where they do nothing.
- Errors opening or taking a lock file, which end an operation before it starts.
- SearchIndex.DataDirectory.IndexRepository: repository names are usable ones; the refusal of others is in
  RepositoryDir.
- SessionProvider.Provider.Persistent: the wait for an attempt, the caller's own cancellation and the call
  over the session are not part of it; a call that fails retires the session.
- CallGraph.Trace: hops are natural numbers. Names are matched plainly, as in the code: two nodes of one name
  are one node.
- CallGraph.SortEdges: the library's sort is an insertion sort here; equal edges are interchangeable.
- Resolving a symbol to one node, and the text and columns of the graph engine's answers.
- Engine queries other than compare_calls, the resolver, evidence marshalling and deadlines: straight-line
  checks.
- History.RoundTripExactly: hashes and dates are as git makes them, and the line breaks that end a message are not
  part of it. Names are byte strings, printed with git's own settings: core.quotePath switched off is not
  modelled.
- Texts are sequences of Unicode characters; bytes that are not UTF-8 are not modelled.
- Time stamps: RFC 3339 normalisation and lower-casing are functions the results hold for whatever they do.
- JSON and YAML text: parsed trees are modelled, with the types that decide a spelling.
- AtomicWrite.NeverTorn: durability after a power loss is not modelled, and the system's temporary names are
  taken not to repeat while in use.
- Messages and details of errors; codes are kept where callers can tell them apart.
- The MCP tools, transports, flags, doctor output and signal handling, which encode and print.
