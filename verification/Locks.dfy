/** The per-repository lock at full detail: a mutex between the goroutines of one process and a file
    lock between processes, taken mutex first and file second, name by name in sorted order, and
    released in reverse. Any number of goroutines in any number of processes, with any lists. */
module Locks {
  import opened Options
  import opened NameOrder

  datatype Phase = Taking | Inside | Leaving

  /** One goroutine inside withRepositoryLocks: it holds the mutexes of the first `mutexes` names
      and the file locks of the first `files`. */
  datatype Goroutine = Goroutine(process: nat, names: seq<string>, phase: Phase, mutexes: nat, files: nat)

  type System = map<nat, Goroutine>

  datatype Label =
    | Call(g: nat, process: nat, repositories: seq<string>)
    | Step(g: nat)
    | Kill(process: nat)

  function Mutexes(q: Goroutine): set<string> {
    set i | 0 <= i < q.mutexes && i < |q.names| :: q.names[i]
  }

  function Files(q: Goroutine): set<string> {
    set i | 0 <= i < q.files && i < |q.names| :: q.names[i]
  }

  /** What a goroutine that is still taking locks takes next; the flag says it is the file. */
  predicate WantsFile(q: Goroutine) { q.files < q.mutexes }

  predicate MutexFree(s: System, process: nat, r: string) {
    forall o :: o in s && s[o].process == process ==> r !in Mutexes(s[o])
  }

  predicate FileFree(s: System, r: string) {
    forall o :: o in s ==> r !in Files(s[o])
  }

  /** One atomic step: taking the next mutex or file lock, running, or giving the last one back. */
  function Apply(s: System, l: Label): Option<System> {
    match l
    case Call(g, process, repositories) =>
      if g in s then None else Some(s[g := Goroutine(process, LockNames(repositories), Taking, 0, 0)])
    case Kill(process) => Some(map g | g in s && s[g].process != process :: s[g])
    case Step(g) =>
      if g !in s then None
      else
        var q := s[g];
        match q.phase
        case Taking =>
          if q.files == |q.names| then Some(s[g := q.(phase := Inside)])
          else if WantsFile(q) then
            if q.files < |q.names| && FileFree(s, q.names[q.files]) then Some(s[g := q.(files := q.files + 1)]) else None
          else
            if q.mutexes < |q.names| && MutexFree(s, q.process, q.names[q.mutexes]) then Some(s[g := q.(mutexes := q.mutexes + 1)]) else None
        case Inside => Some(s[g := q.(phase := Leaving)])
        case Leaving =>
          if q.mutexes == 0 then Some(s - {g})
          else if WantsFile(q) then Some(s[g := q.(mutexes := q.mutexes - 1)])
          else if q.files > 0 then Some(s[g := q.(files := q.files - 1)])
          else None
  }

  // ---------------------------------------------------------------- the invariant

  ghost predicate GoroutineOk(q: Goroutine) {
    && Increasing(q.names)
    && q.files <= q.mutexes <= q.files + 1 && q.mutexes <= |q.names|
    && (q.phase.Inside? ==> q.files == |q.names|)
  }

  ghost predicate Inv(s: System) {
    && (forall g :: g in s ==> GoroutineOk(s[g]))
    && (forall g, o :: g in s && o in s && g != o ==> Files(s[g]) !! Files(s[o]))
    && (forall g, o :: g in s && o in s && g != o && s[g].process == s[o].process ==> Mutexes(s[g]) !! Mutexes(s[o]))
  }

  lemma TakesOne(q: Goroutine)
    requires GoroutineOk(q)
    ensures q.mutexes < |q.names| ==> Mutexes(q.(mutexes := q.mutexes + 1)) == Mutexes(q) + {q.names[q.mutexes]}
    ensures q.files < |q.names| ==> Files(q.(files := q.files + 1)) == Files(q) + {q.names[q.files]}
    ensures q.mutexes > 0 ==> Mutexes(q.(mutexes := q.mutexes - 1)) <= Mutexes(q)
    ensures q.files > 0 ==> Files(q.(files := q.files - 1)) <= Files(q)
  {}

  /** One goroutine may change when it holds nothing another holds. */
  lemma ChangeInv(s: System, g: nat, q: Goroutine)
    requires Inv(s) && GoroutineOk(q)
    requires forall o :: o in s && o != g ==> Files(q) !! Files(s[o])
    requires forall o :: o in s && o != g && s[o].process == q.process ==> Mutexes(q) !! Mutexes(s[o])
    ensures Inv(s[g := q])
  {
    hide Files, Mutexes, GoroutineOk;
  }

  /** It holds no more than it did, or one lock more that was free. */
  lemma ShrinkInv(s: System, g: nat, q: Goroutine)
    requires Inv(s) && g in s && GoroutineOk(q) && q.process == s[g].process
    requires Files(q) <= Files(s[g]) || exists r :: FileFree(s, r) && Files(q) == Files(s[g]) + {r}
    requires Mutexes(q) <= Mutexes(s[g]) || exists r :: MutexFree(s, q.process, r) && Mutexes(q) == Mutexes(s[g]) + {r}
    ensures Inv(s[g := q])
  {
    hide Files, Mutexes, GoroutineOk;
    ChangeInv(s, g, q);
  }

  lemma TakeInv(s: System, g: nat)
    requires Inv(s) && g in s && s[g].phase.Taking? && Apply(s, Step(g)).Some?
    ensures Inv(Apply(s, Step(g)).value)
  {
    hide Files, Mutexes, Increasing, Inv, FileFree, MutexFree;
    var q := s[g];
    assert GoroutineOk(q) by { InvOk(s, g); }
    TakesOne(q);
    var q' := Apply(s, Step(g)).value[g];
    SameHeld(q, q');
    assert q'.files == q.files + 1 ==> FileFree(s, q.names[q.files]);
    assert q'.mutexes == q.mutexes + 1 ==> MutexFree(s, q.process, q.names[q.mutexes]);
    ShrinkInv(s, g, q');
  }

  lemma InvOk(s: System, g: nat)
    requires Inv(s) && g in s
    ensures GoroutineOk(s[g])
  {}

  lemma SameHeld(q: Goroutine, o: Goroutine)
    requires q.names == o.names
    ensures q.files == o.files ==> Files(q) == Files(o)
    ensures q.mutexes == o.mutexes ==> Mutexes(q) == Mutexes(o)
  {}

  lemma GiveInv(s: System, g: nat)
    requires Inv(s) && g in s && !s[g].phase.Taking? && Apply(s, Step(g)).Some?
    ensures Inv(Apply(s, Step(g)).value)
  {
    var q := s[g];
    if q.phase.Leaving? && q.mutexes == 0 {
      hide Files, Mutexes, Increasing;
    } else {
      hide Files, Mutexes, Increasing, Inv;
      InvOk(s, g);
      TakesOne(q);
      var q' := Apply(s, Step(g)).value[g];
      SameHeld(q, q');
      ShrinkInv(s, g, q');
    }
  }

  lemma StepInv(s: System, l: Label)
    requires Inv(s) && Apply(s, l).Some?
    ensures Inv(Apply(s, l).value)
  {
    hide LockNames, Less, GoroutineOk, FileFree, MutexFree, Increasing;
    match l
    case Call(g, process, repositories) =>
      var q := Goroutine(process, LockNames(repositories), Taking, 0, 0);
      FreshGoroutine(q);
      ChangeInv(s, g, q);
    case Kill(_) =>
    case Step(g) =>
      hide Inv;
      if s[g].phase.Taking? { TakeInv(s, g); } else { GiveInv(s, g); }
  }

  lemma FreshGoroutine(q: Goroutine)
    requires Increasing(q.names) && q.phase.Taking? && q.mutexes == 0 && q.files == 0
    ensures GoroutineOk(q) && Mutexes(q) == {} && Files(q) == {}
  {}

  function Run(s: System, labels: seq<Label>): Option<System>
    decreases |labels|
  {
    if labels == [] then Some(s)
    else match Apply(s, labels[0])
      case None => None
      case Some(next) => Run(next, labels[1..])
  }

  lemma {:induction false} RunInv(s: System, labels: seq<Label>)
    requires Inv(s) && Run(s, labels).Some?
    ensures Inv(Run(s, labels).value)
    decreases |labels|
  {
    hide Inv, Apply;
    if labels != [] {
      StepInv(s, labels[0]);
      RunInv(Apply(s, labels[0]).value, labels[1..]);
    }
  }

  ghost predicate Reachable(s: System) {
    exists labels :: Run(map[], labels) == Some(s)
  }

  lemma ReachableInv(s: System)
    requires Reachable(s)
    ensures Inv(s)
  {
    var labels :| Run(map[], labels) == Some(s);
    RunInv(map[], labels);
  }

  /** Nobody else is inside: two goroutines that run under the locks of their lists, in one process
      or in two, have no repository in common. */
  lemma OneInside(s: System, g: nat, o: nat, r: string)
    requires Reachable(s) && g in s && o in s && s[g].phase.Inside? && s[o].phase.Inside?
    requires r in s[g].names && r in s[o].names
    ensures g == o
  {
    ReachableInv(s);
    var i :| 0 <= i < |s[g].names| && s[g].names[i] == r;
    var j :| 0 <= j < |s[o].names| && s[o].names[j] == r;
    assert r in Files(s[g]) && r in Files(s[o]);
  }

  /** Asking for one repository twice takes its lock once, and the order of the list is no matter:
      what a goroutine runs under is the set of its repositories. */
  lemma SetOfLocks(s: System, g: nat, process: nat, repositories: seq<string>)
    requires g !in s
    ensures Apply(s, Call(g, process, repositories)).Some?
    ensures var q := Apply(s, Call(g, process, repositories)).value[g];
            Increasing(q.names) && forall r :: r in q.names <==> r in repositories
  {}

  // ---------------------------------------------------------------- no deadlock

  predicate Blocked(q: Goroutine) {
    q.phase.Taking? && q.files < |q.names|
  }

  function WantedName(q: Goroutine): string
    requires GoroutineOk(q) && Blocked(q)
  {
    q.names[q.files]
  }

  /** The order all locks are taken in: by name, and of one name the mutex before the file. */
  predicate Before(q: Goroutine, o: Goroutine)
    requires GoroutineOk(q) && Blocked(q) && GoroutineOk(o) && Blocked(o)
  {
    Less(WantedName(q), WantedName(o)) || (WantedName(q) == WantedName(o) && !WantsFile(q) && WantsFile(o))
  }

  lemma BeforeTransitive(a: Goroutine, b: Goroutine, c: Goroutine)
    requires GoroutineOk(a) && GoroutineOk(b) && GoroutineOk(c) && Blocked(a) && Blocked(b) && Blocked(c)
    requires Before(a, b) && Before(b, c)
    ensures Before(a, c)
  {
    if Less(WantedName(a), WantedName(b)) && Less(WantedName(b), WantedName(c)) {
      LessTransitive(WantedName(a), WantedName(b), WantedName(c));
    }
  }

  lemma {:induction false} Last(s: System, waiting: set<nat>) returns (g: nat)
    requires waiting != {} && forall o :: o in waiting ==> o in s && GoroutineOk(s[o]) && Blocked(s[o])
    ensures g in waiting && forall o :: o in waiting ==> !Before(s[g], s[o])
    decreases |waiting|
  {
    hide GoroutineOk, Blocked, WantedName;
    var q :| q in waiting;
    LessIrreflexive(WantedName(s[q]));
    if waiting == {q} {
      g := q;
    } else {
      g := Last(s, waiting - {q});
      if Before(s[g], s[q]) {
        forall o | o in waiting ensures !Before(s[q], s[o]) {
          if o != q && Before(s[q], s[o]) {
            BeforeTransitive(s[g], s[q], s[o]);
          }
        }
        g := q;
      }
    }
  }

  /** Whoever holds the lock another waits for is further on, or not waiting at all. */
  lemma HolderIsFurther(q: Goroutine, o: Goroutine)
    requires GoroutineOk(q) && Blocked(q) && GoroutineOk(o) && Blocked(o)
    requires if WantsFile(q) then WantedName(q) in Files(o) else WantedName(q) in Mutexes(o)
    ensures Before(q, o)
  {
    var r := WantedName(q);
    var i :| 0 <= i < (if WantsFile(q) then o.files else o.mutexes) && i < |o.names| && o.names[i] == r;
    assert i < o.files ==> Less(o.names[i], o.names[o.files]);
  }

  /** In every reachable state with anyone left, someone can step: nobody waits in a circle. */
  lemma NoDeadlock(s: System) returns (g: nat)
    requires Reachable(s) && s != map[]
    ensures g in s && Apply(s, Step(g)).Some?
  {
    ReachableInv(s);
    hide Reachable;
    if o :| o in s && !Blocked(s[o]) {
      g := o;
    } else {
      var o :| o in s;
      assert o in s.Keys;
      g := Last(s, s.Keys);
      LastCanTake(s, g);
    }
  }

  lemma LastCanTake(s: System, g: nat)
    requires Inv(s) && g in s && (forall o :: o in s ==> Blocked(s[o])) && forall o :: o in s ==> !Before(s[g], s[o])
    ensures Apply(s, Step(g)).Some?
  {
    hide Before, WantedName, Files, Mutexes, Less, Increasing;
    var q := s[g];
    var r := WantedName(q);
    forall o | o in s ensures WantsFile(q) ==> r !in Files(s[o]) {
      if WantsFile(q) && r in Files(s[o]) { HolderIsFurther(q, s[o]); }
    }
    forall o | o in s ensures !WantsFile(q) ==> r !in Mutexes(s[o]) {
      if !WantsFile(q) && r in Mutexes(s[o]) { HolderIsFurther(q, s[o]); }
    }
    CanTake(s, g);
  }

  lemma CanTake(s: System, g: nat)
    requires g in s && GoroutineOk(s[g]) && Blocked(s[g])
    requires if WantsFile(s[g]) then FileFree(s, WantedName(s[g])) else MutexFree(s, s[g].process, WantedName(s[g]))
    ensures Apply(s, Step(g)).Some?
  {
    hide FileFree, MutexFree;
  }

  // ---------------------------------------------------------------- everybody gets out

  /** The steps one goroutine has still to take. */
  function Remaining(q: Goroutine): int {
    var n := |q.names|;
    match q.phase
    case Taking => 4 * n + 3 - q.mutexes - q.files
    case Inside => 2 * n + 2
    case Leaving => q.mutexes + q.files + 1
  }

  lemma StepCosts(s: System, g: nat)
    requires Inv(s) && g in s && Apply(s, Step(g)).Some?
    ensures var next := Apply(s, Step(g)).value;
            Remaining(s[g]) > 0 &&
            (if g in next then next == s[g := next[g]] && Remaining(next[g]) == Remaining(s[g]) - 1
             else next == s - {g} && Remaining(s[g]) == 1)
  {
    hide FileFree, MutexFree, Increasing;
  }

  ghost function Total(s: System): int
    decreases |s|
  {
    if s == map[] then 0
    else
      var g :| g in s;
      Remaining(s[g]) + Total(s - {g})
  }

  lemma {:induction false} TotalSplit(s: System, g: nat)
    requires g in s
    ensures Total(s) == Remaining(s[g]) + Total(s - {g})
    decreases |s|
  {
    hide Remaining;
    var h :| h in s && Total(s) == Remaining(s[h]) + Total(s - {h});
    if h != g {
      TotalSplit(s - {h}, g);
      TotalSplit(s - {g}, h);
      assert s - {h} - {g} == s - {g} - {h};
    }
  }

  lemma TotalStep(s: System, g: nat)
    requires Inv(s) && g in s && Apply(s, Step(g)).Some?
    ensures Total(Apply(s, Step(g)).value) == Total(s) - 1
  {
    var next := Apply(s, Step(g)).value;
    StepCosts(s, g);
    hide Remaining, Apply, Inv;
    TotalSplit(s, g);
    if g in next {
      TotalSplit(next, g);
      assert next - {g} == s - {g};
    }
  }

  predicate OnlySteps(labels: seq<Label>) {
    forall i :: 0 <= i < |labels| ==> labels[i].Step?
  }

  /** Every schedule of steps uses up exactly what is left to do. Together with NoDeadlock: however
      the goroutines are scheduled, after that many steps everyone has been inside and is out. */
  lemma {:induction false} ScheduleUsesUp(s: System, labels: seq<Label>)
    requires Inv(s) && OnlySteps(labels) && Run(s, labels).Some?
    ensures Total(Run(s, labels).value) == Total(s) - |labels|
    ensures Inv(Run(s, labels).value) && Total(Run(s, labels).value) >= 0
    ensures |labels| == Total(s) ==> Run(s, labels).value == map[]
    decreases |labels|
  {
    if labels == [] {
      TotalPositive(s);
    } else {
      StepInv(s, labels[0]);
      TotalStep(s, labels[0].g);
      hide Inv, Apply;
      ScheduleUsesUp(Apply(s, labels[0]).value, labels[1..]);
    }
  }

  lemma {:induction false} TotalPositive(s: System)
    requires Inv(s)
    ensures Total(s) >= 0 && (Total(s) == 0 ==> s == map[])
    decreases |s|
  {
    if s != map[] {
      var g :| g in s;
      TotalSplit(s, g);
      TotalPositive(s - {g});
      assert GoroutineOk(s[g]);
    }
  }
}
