/** Rebuilding a call graph from what the graph engine answers: the least number of hops to every
    node, where each node lives, and the calls between neighbouring hops. */
module CallGraph {
  import opened Options
  import opened Calls
  import opened NameOrder

  datatype Direction = Callers | Callees

  /** One row of a walk: a name that could be read or not, and a hop that reads as 0 when absent. */
  datatype Row = Row(name: Option<string>, hop: Option<nat>)

  /** A node of the graph: where it lives and which names it is connected to, in either direction. */
  datatype Node = Node(name: string, path: string, line: int, connected: seq<string>)

  function HopOf(row: Row): nat {
    match row.hop
    case None => 0
    case Some(h) => h
  }

  // ---------------------------------------------------------------- least hops

  /** A row that says its name is this far out, and one that says it is at most this far: a row without
      a hop is of the root's own distance. */
  ghost predicate Reaches(row: Row, n: string, hop: nat) {
    row.name == Some(n) && (row.hop == Some(hop) || (row.hop == None && hop == 0))
  }

  ghost predicate NoFurther(row: Row, hop: nat) {
    (row.hop.Some? ==> hop <= row.hop.value) && (row.hop.None? ==> hop == 0)
  }

  /** The hop a name is first reached at, over some rows. */
  ghost predicate LeastHops(hops: map<string, nat>, rows: set<Row>) {
    && (forall row :: row in rows && row.name.Some? ==> row.name.value in hops && NoFurther(row, hops[row.name.value]))
    && (forall n :: n in hops ==> exists row :: row in rows && Reaches(row, n, hops[n]))
  }

  function Flat(groups: seq<seq<Row>>): set<Row> {
    set g, row | g in groups && row in g :: row
  }

  /** Reads every node a walk reached, at the shortest distance it was reached at. */
  method Trace(groups: seq<seq<Row>>) returns (hops: map<string, nat>)
    ensures LeastHops(hops, Flat(groups))
  {
    hops := map[];
    for i := 0 to |groups|
      invariant LeastHops(hops, Flat(groups[..i]))
    {
      var group := groups[i];
      for j := 0 to |group|
        invariant LeastHops(hops, Flat(groups[..i]) + Rows(group[..j]))
      {
        var row := group[j];
        assert group[..j + 1] == group[..j] + [row];
        hops := WithRow(hops, row, Flat(groups[..i]) + Rows(group[..j]));
        assert Flat(groups[..i]) + Rows(group[..j + 1]) == Flat(groups[..i]) + Rows(group[..j]) + {row};
      }
      assert group[..|group|] == group;
      assert Flat(groups[..i + 1]) == Flat(groups[..i]) + Rows(group) by {
        assert groups[..i + 1] == groups[..i] + [group];
      }
    }
    assert groups[..|groups|] == groups;
  }

  ghost function Rows(group: seq<Row>): set<Row> { set row | row in group }

  /** A name found again on a longer walk stays at the shorter distance. */
  function WithRow(hops: map<string, nat>, row: Row, ghost rows: set<Row>): (r: map<string, nat>)
    requires LeastHops(hops, rows)
    ensures LeastHops(r, rows + {row})
  {
    if row.name.None? then hops
    else if row.name.value !in hops || HopOf(row) < hops[row.name.value] then hops[row.name.value := HopOf(row)]
    else hops
  }

  /** What was reached and how far it is depends on the rows alone, not on their order or grouping. */
  lemma HopsDetermined(a: map<string, nat>, b: map<string, nat>, rows: set<Row>)
    requires LeastHops(a, rows) && LeastHops(b, rows)
    ensures a == b
  {
    forall n | n in a ensures n in b && b[n] == a[n] {
      var row :| row in rows && Reaches(row, n, a[n]);
      assert n in b;
      var other :| other in rows && Reaches(other, n, b[n]);
    }
    forall n | n in b ensures n in a {
      var row :| row in rows && Reaches(row, n, b[n]);
    }
  }

  // ---------------------------------------------------------------- locating

  /** The first row of a name wins, and only names the walk reached matter. */
  method Locate(hops: map<string, nat>, found: seq<Node>) returns (nodes: map<string, Node>)
    ensures forall n :: n in nodes <==> n in hops && exists i :: 0 <= i < |found| && found[i].name == n
    ensures forall n :: n in nodes ==> exists i :: (0 <= i < |found| && nodes[n] == found[i] && found[i].name == n &&
              forall j :: 0 <= j < i ==> found[j].name != n)
  {
    nodes := map[];
    for k := 0 to |found|
      invariant forall n :: n in nodes <==> n in hops && exists i :: 0 <= i < k && found[i].name == n
      invariant forall n :: n in nodes ==> exists i :: (0 <= i < k && nodes[n] == found[i] && found[i].name == n &&
                  forall j :: 0 <= j < i ==> found[j].name != n)
    {
      var n := found[k];
      if n.name !in hops {
        continue;
      }
      if n.name !in nodes {
        nodes := nodes[n.name := n];
      }
    }
  }

  /** Every located node is filed under its own name and was reached. */
  ghost predicate Located(hops: map<string, nat>, nodes: map<string, Node>) {
    forall n :: n in nodes ==> n in hops && nodes[n].name == n
  }

  // ---------------------------------------------------------------- edges

  /** The call between a node and one a hop further out, cited where the caller is. */
  function EdgeBetween(near: Node, far: Node, direction: Direction): Edge {
    if direction == Callers then Edge(far.name, near.name, far.path, far.line)
    else Edge(near.name, far.name, near.path, near.line)
  }

  predicate Crosses(hops: map<string, nat>, nodes: map<string, Node>, name: string, neighbour: string) {
    name in hops && neighbour in nodes && neighbour in hops && hops[neighbour] == hops[name] + 1
  }

  /** The calls one node's list of neighbours gives, in the order it lists them. */
  function CallsFrom(hops: map<string, nat>, nodes: map<string, Node>, direction: Direction, name: string, neighbours: seq<string>): seq<Edge>
    requires name in nodes
  {
    if neighbours == [] then []
    else
      var last := neighbours[|neighbours| - 1];
      var before := CallsFrom(hops, nodes, direction, name, neighbours[..|neighbours| - 1]);
      if Crosses(hops, nodes, name, last) then before + [EdgeBetween(nodes[name], nodes[last], direction)] else before
  }

  function CallsOf(hops: map<string, nat>, nodes: map<string, Node>, direction: Direction, name: string): seq<Edge> {
    if name in nodes then CallsFrom(hops, nodes, direction, name, nodes[name].connected) else []
  }

  /** All calls of some nodes, with multiplicities and in no order. */
  ghost function AllCalls(hops: map<string, nat>, nodes: map<string, Node>, direction: Direction, names: set<string>): multiset<Edge> {
    if names == {} then multiset{}
    else
      var n :| n in names;
      multiset(CallsOf(hops, nodes, direction, n)) + AllCalls(hops, nodes, direction, names - {n})
  }

  lemma {:induction false} AllCallsSplit(hops: map<string, nat>, nodes: map<string, Node>, direction: Direction, names: set<string>, n: string)
    requires n in names
    ensures AllCalls(hops, nodes, direction, names) ==
            multiset(CallsOf(hops, nodes, direction, n)) + AllCalls(hops, nodes, direction, names - {n})
    decreases |names|
  {
    hide CallsOf;
    var m :| m in names && AllCalls(hops, nodes, direction, names) ==
              multiset(CallsOf(hops, nodes, direction, m)) + AllCalls(hops, nodes, direction, names - {m});
    if m != n {
      AllCallsSplit(hops, nodes, direction, names - {m}, n);
      AllCallsSplit(hops, nodes, direction, names - {n}, m);
      assert names - {m} - {n} == names - {n} - {m};
    }
  }

  /** a is listed no later than b. */
  predicate AtMost(a: Edge, b: Edge) {
    Less(a.caller, b.caller) || (a.caller == b.caller && (a.callee == b.callee || Less(a.callee, b.callee)))
  }

  ghost predicate Sorted(s: seq<Edge>) {
    forall i, j :: 0 <= i < j < |s| ==> AtMost(s[i], s[j])
  }

  /** Sorted by caller and then by callee, as strings compare. */
  lemma SortedByCaller(s: seq<Edge>, i: nat, j: nat)
    requires Sorted(s) && i < j < |s|
    ensures !Less(s[j].caller, s[i].caller)
    ensures s[i].caller == s[j].caller ==> !Less(s[j].callee, s[i].callee)
  {
    LessIrreflexive(s[i].caller);
    LessIrreflexive(s[i].callee);
    if Less(s[i].caller, s[j].caller) && Less(s[j].caller, s[i].caller) { LessTransitive(s[i].caller, s[j].caller, s[i].caller); }
    if Less(s[i].callee, s[j].callee) && Less(s[j].callee, s[i].callee) { LessTransitive(s[i].callee, s[j].callee, s[i].callee); }
  }

  lemma AtMostTotal(a: Edge, b: Edge)
    ensures AtMost(a, b) || AtMost(b, a)
    ensures AtMost(a, b) && AtMost(b, a) ==> a.caller == b.caller && a.callee == b.callee
  {
    LessTotal(a.caller, b.caller);
    LessTotal(a.callee, b.callee);
    LessIrreflexive(a.caller);
    LessIrreflexive(a.callee);
    if Less(a.caller, b.caller) && Less(b.caller, a.caller) { LessTransitive(a.caller, b.caller, a.caller); }
    if Less(a.callee, b.callee) && Less(b.callee, a.callee) { LessTransitive(a.callee, b.callee, a.callee); }
  }

  lemma AtMostTransitive(a: Edge, b: Edge, c: Edge)
    requires AtMost(a, b) && AtMost(b, c)
    ensures AtMost(a, c)
  {
    if Less(a.caller, b.caller) && Less(b.caller, c.caller) { LessTransitive(a.caller, b.caller, c.caller); }
    if Less(a.callee, b.callee) && Less(b.callee, c.callee) { LessTransitive(a.callee, b.callee, c.callee); }
  }

  /** Puts one edge into a sorted list. */
  method InsertEdge(s: seq<Edge>, e: Edge) returns (r: seq<Edge>)
    requires Sorted(s)
    ensures Sorted(r) && multiset(r) == multiset(s) + multiset{e}
  {
    var i := 0;
    while i < |s| && AtMost(s[i], e)
      invariant 0 <= i <= |s|
      invariant forall k :: 0 <= k < i ==> AtMost(s[k], e)
    {
      i := i + 1;
    }
    r := s[..i] + [e] + s[i..];
    assert s == s[..i] + s[i..];
    if i < |s| { AtMostTotal(s[i], e); }
    forall k | i <= k < |s| ensures AtMost(e, s[k]) {
      if k > i { AtMostTransitive(e, s[i], s[k]); }
    }
  }

  /** Sorting by caller and callee. */
  method SortEdges(s: seq<Edge>) returns (r: seq<Edge>)
    ensures Sorted(r) && multiset(r) == multiset(s)
  {
    r := [];
    for i := 0 to |s|
      invariant Sorted(r) && multiset(r) == multiset(s[..i])
    {
      assert s[..i + 1] == s[..i] + [s[i]];
      r := InsertEdge(r, s[i]);
    }
    assert s[..|s|] == s;
  }

  /** The calls one node gives: those to the located neighbours exactly a hop further out. */
  method CollectCalls(hops: map<string, nat>, nodes: map<string, Node>, direction: Direction, name: string) returns (calls: seq<Edge>)
    requires name in nodes && name in hops
    ensures calls == CallsOf(hops, nodes, direction, name)
  {
    calls := [];
    var connected := nodes[name].connected;
    for i := 0 to |connected|
      invariant calls == CallsFrom(hops, nodes, direction, name, connected[..i])
    {
      assert connected[..i + 1][..i] == connected[..i];
      var neighbour := connected[i];
      if neighbour !in nodes || neighbour !in hops || hops[neighbour] != hops[name] + 1 {
        continue;
      }
      calls := calls + [EdgeBetween(nodes[name], nodes[neighbour], direction)];
    }
    assert connected[..|connected|] == connected;
  }

  /** Rebuilds the calls from the walk, whatever order the map of hops is gone through in. */
  method Edges(hops: map<string, nat>, nodes: map<string, Node>, direction: Direction) returns (built: seq<Edge>)
    ensures Sorted(built)
    ensures multiset(built) == AllCalls(hops, nodes, direction, hops.Keys)
  {
    hide Sorted, CallsOf;
    built := [];
    var todo := hops.Keys;
    while todo != {}
      invariant todo <= hops.Keys
      invariant multiset(built) + AllCalls(hops, nodes, direction, todo) == AllCalls(hops, nodes, direction, hops.Keys)
      decreases todo
    {
      var name :| name in todo;
      AllCallsSplit(hops, nodes, direction, todo, name);
      todo := todo - {name};
      NoNodeNoCalls(hops, nodes, direction, name);
      if name !in nodes {
        continue;
      }
      var calls := CollectCalls(hops, nodes, direction, name);
      built := built + calls;
    }
    built := SortEdges(built);
  }

  lemma NoNodeNoCalls(hops: map<string, nat>, nodes: map<string, Node>, direction: Direction, name: string)
    ensures name !in nodes ==> multiset(CallsOf(hops, nodes, direction, name)) == multiset{}
  {}

  // ---------------------------------------------------------------- what the edges are

  /** An edge joins two located nodes a hop apart, and is cited at its caller. */
  ghost predicate Sound(hops: map<string, nat>, nodes: map<string, Node>, direction: Direction, e: Edge) {
    && e.caller in nodes && e.callee in nodes && e.caller in hops && e.callee in hops
    && (if direction == Callees then hops[e.callee] == hops[e.caller] + 1 else hops[e.caller] == hops[e.callee] + 1)
    && e.path == nodes[e.caller].path && e.line == nodes[e.caller].line
  }

  lemma {:induction false} CallsSound(hops: map<string, nat>, nodes: map<string, Node>, direction: Direction, name: string, neighbours: seq<string>, e: Edge)
    requires name in nodes && Located(hops, nodes) && e in CallsFrom(hops, nodes, direction, name, neighbours)
    ensures Sound(hops, nodes, direction, e)
  {
    if neighbours != [] {
      var n := |neighbours| - 1;
      if e in CallsFrom(hops, nodes, direction, name, neighbours[..n]) {
        CallsSound(hops, nodes, direction, name, neighbours[..n], e);
      }
    }
  }

  lemma {:induction false} AllSound(hops: map<string, nat>, nodes: map<string, Node>, direction: Direction, names: set<string>, e: Edge)
    requires Located(hops, nodes) && e in AllCalls(hops, nodes, direction, names)
    ensures Sound(hops, nodes, direction, e)
    decreases |names|
  {
    hide Sound;
    var n :| n in names && AllCalls(hops, nodes, direction, names) ==
              multiset(CallsOf(hops, nodes, direction, n)) + AllCalls(hops, nodes, direction, names - {n});
    if e in CallsOf(hops, nodes, direction, n) {
      CallsSound(hops, nodes, direction, n, nodes[n].connected, e);
    } else {
      AllSound(hops, nodes, direction, names - {n}, e);
    }
  }

  /** A sorted list is determined by what is in it, when equal caller and callee mean equal edges. */
  lemma {:induction false} SortedUnique(a: seq<Edge>, b: seq<Edge>)
    requires Sorted(a) && Sorted(b) && multiset(a) == multiset(b)
    requires forall e, f :: e in a && f in a && e.caller == f.caller && e.callee == f.callee ==> e == f
    ensures a == b
    decreases |a|
  {
    hide AtMost, Sorted;
    assert |a| == |multiset(a)| == |multiset(b)| == |b|;
    if a != [] {
      SameFirst(a, b);
      assert a == [a[0]] + a[1..] && b == [b[0]] + b[1..];
      assert multiset(a[1..]) == multiset(a) - multiset{a[0]};
      assert multiset(b[1..]) == multiset(b) - multiset{b[0]};
      SortedTail(a);
      SortedTail(b);
      SortedUnique(a[1..], b[1..]);
    }
  }

  lemma SortedTail(s: seq<Edge>)
    requires Sorted(s) && s != []
    ensures Sorted(s[1..])
  {
    hide AtMost;
  }

  lemma SameFirst(a: seq<Edge>, b: seq<Edge>)
    requires Sorted(a) && Sorted(b) && multiset(a) == multiset(b) && a != [] && b != []
    requires forall e, f :: e in a && f in a && e.caller == f.caller && e.callee == f.callee ==> e == f
    ensures a[0] == b[0]
  {
    hide AtMost, Sorted;
    assert a[0] in multiset(b) && b[0] in multiset(a);
    FirstLeast(a, b[0]);
    FirstLeast(b, a[0]);
    AtMostTotal(a[0], b[0]);
  }

  lemma FirstLeast(s: seq<Edge>, e: Edge)
    requires Sorted(s) && e in s
    ensures e == s[0] || AtMost(s[0], e)
  {}

  /** The edge list does not depend on the order the maps are gone through in: any two lists that
      the rebuild may give are one. */
  lemma OrderIndependent(hops: map<string, nat>, nodes: map<string, Node>, direction: Direction, a: seq<Edge>, b: seq<Edge>)
    requires Located(hops, nodes)
    requires Sorted(a) && multiset(a) == AllCalls(hops, nodes, direction, hops.Keys)
    requires Sorted(b) && multiset(b) == AllCalls(hops, nodes, direction, hops.Keys)
    ensures a == b
  {
    forall e | e in a ensures Sound(hops, nodes, direction, e) {
      assert e in multiset(a);
      AllSound(hops, nodes, direction, hops.Keys, e);
    }
    forall e, f | e in a && f in a && e.caller == f.caller && e.callee == f.callee ensures e == f {
      assert Sound(hops, nodes, direction, e) && Sound(hops, nodes, direction, f);
    }
    hide Sorted, AllCalls;
    SortedUnique(a, b);
  }

  /** An emitted call joins the two, the second one further from the root. */
  ghost predicate Joined(calls: multiset<Edge>, direction: Direction, near: string, far: string) {
    exists e :: e in calls && (if direction == Callees then e.caller == near && e.callee == far else e.callee == near && e.caller == far)
  }

  /** A walk along emitted calls, away from the root. */
  ghost predicate Walk(calls: multiset<Edge>, direction: Direction, p: seq<string>) {
    forall i :: 0 <= i < |p| - 1 ==> Joined(calls, direction, p[i], p[i + 1])
  }

  lemma JoinedSound(hops: map<string, nat>, nodes: map<string, Node>, direction: Direction, near: string, far: string)
    requires Located(hops, nodes) && Joined(AllCalls(hops, nodes, direction, hops.Keys), direction, near, far)
    ensures near in hops && far in hops && hops[far] == hops[near] + 1
  {
    hide AllCalls;
    var e :| e in AllCalls(hops, nodes, direction, hops.Keys) &&
             (if direction == Callees then e.caller == near && e.callee == far else e.callee == near && e.caller == far);
    AllSound(hops, nodes, direction, hops.Keys, e);
  }

  /** Every edge crosses exactly one hop, so a walk of emitted calls gets one hop further with every
      call: the graph has no cycle. */
  lemma {:induction false} WalksOutward(hops: map<string, nat>, nodes: map<string, Node>, direction: Direction, p: seq<string>)
    requires Located(hops, nodes) && |p| > 1
    requires Walk(AllCalls(hops, nodes, direction, hops.Keys), direction, p)
    ensures p[0] in hops && p[|p| - 1] in hops
    ensures hops[p[|p| - 1]] == hops[p[0]] + |p| - 1
    ensures p[0] != p[|p| - 1]
    decreases |p|
  {
    hide Located, AllCalls, Joined;
    var n := |p|;
    assert Joined(AllCalls(hops, nodes, direction, hops.Keys), direction, p[n - 2], p[n - 2 + 1]);
    JoinedSound(hops, nodes, direction, p[n - 2], p[n - 1]);
    if n > 2 {
      WalksOutward(hops, nodes, direction, p[..n - 1]);
    }
  }

  /** Each located node beyond the root is connected to a located one a hop nearer, as a walk of the
      graph is. */
  ghost predicate Layered(hops: map<string, nat>, nodes: map<string, Node>, root: string) {
    && root in nodes && root in hops && hops[root] == 0
    && (forall n :: n in nodes && n in hops && hops[n] == 0 ==> n == root)
    && forall n :: n in nodes && n in hops && hops[n] > 0 ==>
         exists m :: m in nodes && m in hops && hops[m] == hops[n] - 1 && n in nodes[m].connected
  }

  lemma {:induction false} CallListed(hops: map<string, nat>, nodes: map<string, Node>, direction: Direction, name: string, neighbours: seq<string>, n: string)
    requires name in nodes && n in neighbours && Crosses(hops, nodes, name, n)
    ensures EdgeBetween(nodes[name], nodes[n], direction) in CallsFrom(hops, nodes, direction, name, neighbours)
  {
    var k := |neighbours| - 1;
    if neighbours[k] != n {
      assert neighbours == neighbours[..k] + [neighbours[k]];
      CallListed(hops, nodes, direction, name, neighbours[..k], n);
    }
  }

  lemma NeighbourJoined(hops: map<string, nat>, nodes: map<string, Node>, direction: Direction, m: string, n: string)
    requires Located(hops, nodes) && m in nodes && n in nodes && hops[n] == hops[m] + 1 && n in nodes[m].connected
    ensures Joined(AllCalls(hops, nodes, direction, hops.Keys), direction, m, n)
  {
    CallListed(hops, nodes, direction, m, nodes[m].connected, n);
    AllCallsSplit(hops, nodes, direction, hops.Keys, m);
    var e := EdgeBetween(nodes[m], nodes[n], direction);
    assert e in CallsOf(hops, nodes, direction, m);
    hide AllCalls, CallsOf;
    assert e in AllCalls(hops, nodes, direction, hops.Keys);
  }

  lemma WalkFurther(calls: multiset<Edge>, direction: Direction, q: seq<string>, n: string)
    requires q != [] && Walk(calls, direction, q) && Joined(calls, direction, q[|q| - 1], n)
    ensures Walk(calls, direction, q + [n])
  {
    hide Joined;
    var p := q + [n];
    forall i | 0 <= i < |p| - 1 ensures Joined(calls, direction, p[i], p[i + 1]) {
      if i < |q| - 1 {
        assert Joined(calls, direction, q[i], q[i + 1]);
      }
    }
  }

  /** Then every located node lies on a chain of emitted calls from the root, as many as its hop
      says. */
  lemma {:induction false} ReachedByChain(hops: map<string, nat>, nodes: map<string, Node>, direction: Direction, root: string, n: string)
    returns (p: seq<string>)
    requires Located(hops, nodes) && Layered(hops, nodes, root) && n in nodes
    ensures |p| == hops[n] + 1 && p[0] == root && p[|p| - 1] == n
    ensures Walk(AllCalls(hops, nodes, direction, hops.Keys), direction, p)
    decreases hops[n]
  {
    hide AllCalls;
    if hops[n] == 0 {
      p := [n];
    } else {
      var m :| m in nodes && m in hops && hops[m] == hops[n] - 1 && n in nodes[m].connected;
      var q := ReachedByChain(hops, nodes, direction, root, m);
      NeighbourJoined(hops, nodes, direction, m, n);
      WalkFurther(AllCalls(hops, nodes, direction, hops.Keys), direction, q, n);
      p := q + [n];
    }
  }

  /** The least hop of every name the walk reached, with the root at hop 0 once it reached anything. */
  ghost predicate RootedHops(root: string, rows: set<Row>, hops: map<string, nat>) {
    && (hops == map[] <==> forall row :: row in rows ==> row.name.None?)
    && (hops != map[] ==> root in hops && hops[root] == 0)
    && (forall n :: n in hops && n != root ==> exists row :: row in rows && Reaches(row, n, hops[n]))
    && (forall row :: row in rows && row.name.Some? ==>
          row.name.value in hops && (row.name.value != root ==> NoFurther(row, hops[row.name.value])))
  }

  /** The first row found of every name reached. */
  ghost predicate FirstRows(hops: map<string, nat>, found: seq<Node>, nodes: map<string, Node>) {
    && (forall n :: n in nodes <==> n in hops && exists i :: 0 <= i < |found| && found[i].name == n)
    && (forall n :: n in nodes ==> exists i :: FirstRow(found, i, n, nodes[n]))
  }

  predicate FirstRow(found: seq<Node>, i: nat, n: string, node: Node) {
    i < |found| && found[i] == node && node.name == n && forall j :: 0 <= j < i ==> found[j].name != n
  }

  /** The whole of a trace once the symbol is one node: the walk's rows, the root at hop 0, where
      everything lives, and the calls in between. A walk that reached nothing has no calls. */
  method TraceCalls(root: string, groups: seq<seq<Row>>, found: seq<Node>, direction: Direction)
    returns (edges: seq<Edge>, ghost hops: map<string, nat>, ghost nodes: map<string, Node>)
    ensures RootedHops(root, Flat(groups), hops) && FirstRows(hops, found, nodes) && Located(hops, nodes)
    ensures Sorted(edges) && multiset(edges) == AllCalls(hops, nodes, direction, hops.Keys)
    ensures forall e :: e in edges ==> Sound(hops, nodes, direction, e)
    ensures forall near, far :: Neighbours(hops, nodes, near, far) ==> CallBetween(nodes, direction, near, far) in edges
  {
    hide AllCalls, Sorted, Sound;
    var reached := Trace(groups);
    if reached == map[] {
      edges, hops, nodes := [], map[], map[];
      NothingReached(hops, nodes, direction);
      return;
    }
    WalkReached(reached, Flat(groups), root);
    reached := reached[root := 0];
    var located := Locate(reached, found);
    assert FirstRows(reached, found, located) by {
      forall n | n in located ensures exists i :: FirstRow(found, i, n, located[n]) {
        var i :| 0 <= i < |found| && located[n] == found[i] && found[i].name == n && forall j :: 0 <= j < i ==> found[j].name != n;
        assert FirstRow(found, i, n, located[n]);
      }
    }
    hops, nodes := reached, located;
    edges := Edges(reached, located, direction);
    forall e | e in edges ensures Sound(hops, nodes, direction, e) {
      assert e in multiset(edges);
      AllSound(hops, nodes, direction, hops.Keys, e);
    }
    AllListed(hops, nodes, direction, edges);
  }

  /** Two located names, the second a hop further out and listed by the first. */
  ghost predicate Neighbours(hops: map<string, nat>, nodes: map<string, Node>, near: string, far: string) {
    near in nodes && far in nodes && near in hops && far in hops && hops[far] == hops[near] + 1 && far in nodes[near].connected
  }

  /** The call between them: of callees the nearer one calls the further one, of callers the other way
      round, and it is written where the caller is. */
  ghost function CallBetween(nodes: map<string, Node>, direction: Direction, near: string, far: string): Edge
    requires near in nodes && far in nodes
  {
    match direction
    case Callees => Edge(near, far, nodes[near].path, nodes[near].line)
    case Callers => Edge(far, near, nodes[far].path, nodes[far].line)
  }

  lemma NeighboursListed(hops: map<string, nat>, nodes: map<string, Node>, direction: Direction, near: string, far: string)
    requires Located(hops, nodes) && Neighbours(hops, nodes, near, far)
    ensures CallBetween(nodes, direction, near, far) in AllCalls(hops, nodes, direction, hops.Keys)
  {
    CallListed(hops, nodes, direction, near, nodes[near].connected, far);
    AllCallsSplit(hops, nodes, direction, hops.Keys, near);
    var e := EdgeBetween(nodes[near], nodes[far], direction);
    assert e in CallsOf(hops, nodes, direction, near);
    hide AllCalls, CallsOf;
    assert e in AllCalls(hops, nodes, direction, hops.Keys);
  }

  lemma AllListed(hops: map<string, nat>, nodes: map<string, Node>, direction: Direction, edges: seq<Edge>)
    requires Located(hops, nodes) && multiset(edges) == AllCalls(hops, nodes, direction, hops.Keys)
    ensures forall near, far :: Neighbours(hops, nodes, near, far) ==> CallBetween(nodes, direction, near, far) in edges
  {
    hide AllCalls, Located;
    forall near, far | Neighbours(hops, nodes, near, far) ensures CallBetween(nodes, direction, near, far) in edges {
      NeighboursListed(hops, nodes, direction, near, far);
      assert CallBetween(nodes, direction, near, far) in multiset(edges);
    }
  }

  /** The calls at the root itself: a name the walk gives a row of hop 1, and none nearer, is called by
      the root of a walk of callees when the root lists it, and the trace says so. */
  lemma RootCalls(root: string, rows: set<Row>, hops: map<string, nat>, nodes: map<string, Node>, edges: seq<Edge>, n: string)
    requires RootedHops(root, rows, hops) && Located(hops, nodes)
    requires forall near, far :: Neighbours(hops, nodes, near, far) ==> CallBetween(nodes, Callees, near, far) in edges
    requires n != root && Row(Some(n), Some(1)) in rows && Row(Some(n), Some(0)) !in rows && Row(Some(n), None) !in rows
    requires root in nodes && n in nodes && n in nodes[root].connected
    ensures Edge(root, n, nodes[root].path, nodes[root].line) in edges
  {
    assert NoFurther(Row(Some(n), Some(1)), hops[n]);
    var row :| row in rows && Reaches(row, n, hops[n]);
    assert row == Row(Some(n), if row.hop.None? then None else Some(hops[n]));
    assert Neighbours(hops, nodes, root, n);
  }

  lemma NothingReached(hops: map<string, nat>, nodes: map<string, Node>, direction: Direction)
    requires hops == map[]
    ensures Sorted([]) && multiset([]) == AllCalls(hops, nodes, direction, hops.Keys)
    ensures forall near, far :: !Neighbours(hops, nodes, near, far)
  {}

  lemma WalkReached(walked: map<string, nat>, rows: set<Row>, root: string)
    requires LeastHops(walked, rows) && walked != map[]
    ensures RootedHops(root, rows, walked[root := 0])
  {
    var n :| n in walked;
    var row :| row in rows && Reaches(row, n, walked[n]);
  }

  lemma RootedOnce(root: string, rows: set<Row>, a: map<string, nat>, b: map<string, nat>)
    requires RootedHops(root, rows, a) && RootedHops(root, rows, b)
    ensures a == b
  {
    forall n | n in a ensures n in b && b[n] <= a[n] {
      assert b != map[];
      if n != root { var row :| row in rows && Reaches(row, n, a[n]); }
    }
    forall n | n in b ensures n in a && a[n] <= b[n] {
      assert a != map[];
      if n != root { var row :| row in rows && Reaches(row, n, b[n]); }
    }
  }

  lemma FirstRowsOnce(hops: map<string, nat>, found: seq<Node>, a: map<string, Node>, b: map<string, Node>)
    requires FirstRows(hops, found, a) && FirstRows(hops, found, b)
    ensures a == b
  {
    forall n | n in a ensures n in b && a[n] == b[n] {
      var i :| FirstRow(found, i, n, a[n]);
      var j :| FirstRow(found, j, n, b[n]);
    }
  }

  /** From end to end a trace depends on what was reached and what was found, and on no order of a map:
      two traces of the same rows have the same edges. */
  lemma TraceDetermined(root: string, groups: seq<seq<Row>>, groups': seq<seq<Row>>, found: seq<Node>, direction: Direction,
                        hops: map<string, nat>, nodes: map<string, Node>, edges: seq<Edge>,
                        hops': map<string, nat>, nodes': map<string, Node>, edges': seq<Edge>)
    requires Flat(groups) == Flat(groups')
    requires RootedHops(root, Flat(groups), hops) && FirstRows(hops, found, nodes) && Located(hops, nodes)
    requires RootedHops(root, Flat(groups'), hops') && FirstRows(hops', found, nodes') && Located(hops', nodes')
    requires Sorted(edges) && multiset(edges) == AllCalls(hops, nodes, direction, hops.Keys)
    requires Sorted(edges') && multiset(edges') == AllCalls(hops', nodes', direction, hops'.Keys)
    ensures hops == hops' && nodes == nodes' && edges == edges'
  {
    hide RootedHops, FirstRows, AllCalls, Sorted, Located;
    RootedOnce(root, Flat(groups), hops, hops');
    FirstRowsOnce(hops, found, nodes, nodes');
    OrderIndependent(hops, nodes, direction, edges, edges');
  }
}
