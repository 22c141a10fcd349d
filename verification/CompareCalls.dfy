/** Comparing one symbol's call graph in two versions: grouping the call sites of each side by
    relation, citing them, and classifying every relation as added, removed or unchanged. */
module CompareCalls {
  import opened Options
  import opened Calls

  /** A citation: one line of one file. */
  datatype Site = Site(path: string, line: int)

  /** What a call is compared by: who calls whom, in which file; not the line. */
  datatype Relation = Relation(caller: string, callee: string, path: string)

  datatype CallRelation = CallRelation(relation: Relation, fromEvidence: seq<Site>, toEvidence: seq<Site>)

  function KeyOf(e: Edge): Relation { Relation(e.caller, e.callee, e.path) }

  function SiteOf(e: Edge): Site { Site(e.path, e.line) }

  function KeysOf(edges: seq<Edge>): (keys: seq<Relation>)
    ensures |keys| == |edges| && forall i :: 0 <= i < |edges| ==> keys[i] == KeyOf(edges[i])
  {
    seq(|edges|, i requires 0 <= i < |edges| => KeyOf(edges[i]))
  }

  function AllSites(edges: seq<Edge>): (sites: seq<Site>)
    ensures |sites| == |edges| && forall i :: 0 <= i < |edges| ==> sites[i] == SiteOf(edges[i])
  {
    seq(|edges|, i requires 0 <= i < |edges| => SiteOf(edges[i]))
  }

  // ---------------------------------------------------------------- first occurrences

  function Last<T>(s: seq<T>): T
    requires s != []
  {
    s[|s| - 1]
  }

  function Front<T>(s: seq<T>): seq<T>
    requires s != []
  {
    s[..|s| - 1]
  }

  /** A list without its repetitions, each element where it first occurred. */
  function Distinct<T(==)>(s: seq<T>): seq<T> {
    if s == [] then []
    else if Last(s) in Front(s) then Distinct(Front(s))
    else Distinct(Front(s)) + [Last(s)]
  }

  ghost predicate NoDuplicates<T>(s: seq<T>) {
    forall i, j :: 0 <= i < j < |s| ==> s[i] != s[j]
  }

  lemma {:induction false} DistinctElements<T>(s: seq<T>)
    ensures NoDuplicates(Distinct(s))
    ensures forall x :: x in Distinct(s) <==> x in s
  {
    if s != [] {
      DistinctElements(Front(s));
      assert s == Front(s) + [Last(s)];
    }
  }

  /** The place an element first occurs at. */
  function FirstIndex<T(==)>(s: seq<T>, x: T): (i: nat)
    requires x in s
    ensures i < |s| && s[i] == x && x !in s[..i]
  {
    if x in Front(s) then
      assert Front(s)[..FirstIndex(Front(s), x)] == s[..FirstIndex(Front(s), x)];
      FirstIndex(Front(s), x)
    else
      assert s == Front(s) + [Last(s)];
      |s| - 1
  }

  lemma {:induction false} FirstIsFirst<T>(s: seq<T>, x: T, b: nat)
    requires b < |s| && s[b] == x
    ensures FirstIndex(s, x) <= b
  {
    assert b < |s| - 1 ==> Front(s)[b] == x;
    if b < |s| - 1 {
      FirstIsFirst(Front(s), x, b);
    }
  }

  lemma InDistinct<T>(s: seq<T>, i: nat)
    requires i < |Distinct(s)|
    ensures Distinct(s)[i] in s
  {
    var d := Distinct(s);
    DistinctElements(s);
    assert d[i] in d;
  }

  /** The order of the elements is that of their first occurrences. */
  lemma {:induction false} DistinctOrder<T>(s: seq<T>, i: nat, j: nat)
    requires i < j < |Distinct(s)|
    ensures Distinct(s)[i] in s && Distinct(s)[j] in s
    ensures FirstIndex(s, Distinct(s)[i]) < FirstIndex(s, Distinct(s)[j])
  {
    DistinctElements(s);
    DistinctElements(Front(s));
    var d := Distinct(Front(s));
    assert Distinct(s)[i] == d[i] && d[i] in d;
    var x, y := Distinct(s)[i], Distinct(s)[j];
    InDistinct(s, i);
    InDistinct(s, j);
    if j < |d| {
      assert d[j] in d;
      DistinctOrder(Front(s), i, j);
    }
  }

  lemma {:induction false} DistinctIdempotent<T>(s: seq<T>)
    requires NoDuplicates(s)
    ensures Distinct(s) == s
  {
    if s != [] {
      assert s == Front(s) + [Last(s)];
      DistinctIdempotent(Front(s));
    }
  }

  // ---------------------------------------------------------------- grouping and citing

  /** One relation's call sites, in the order they were listed, repetitions kept. */
  function SitesOf(edges: seq<Edge>, key: Relation): seq<Site> {
    if edges == [] then []
    else if KeyOf(Last(edges)) == key then SitesOf(Front(edges), key) + [SiteOf(Last(edges))]
    else SitesOf(Front(edges), key)
  }

  function EdgesOf(graph: Option<seq<Edge>>): seq<Edge> {
    match graph
    case None => []
    case Some(edges) => edges
  }

  /** Indexes one side's edges by relation and lists the relations in the order they first occur. An
      absent side groups to nothing. */
  method Group(graph: Option<seq<Edge>>) returns (sites: map<Relation, seq<Site>>, order: seq<Relation>)
    ensures order == Distinct(KeysOf(EdgesOf(graph)))
    ensures forall k :: k in sites <==> k in KeysOf(EdgesOf(graph))
    ensures forall k :: k in sites ==> sites[k] == SitesOf(EdgesOf(graph), k)
  {
    sites, order := map[], [];
    if graph.None? {
      return;
    }
    var edges := graph.value;
    for i := 0 to |edges|
      invariant order == Distinct(KeysOf(edges[..i]))
      invariant forall k :: k in sites <==> k in KeysOf(edges[..i])
      invariant forall k :: k in sites ==> sites[k] == SitesOf(edges[..i], k)
    {
      var key := KeyOf(edges[i]);
      assert Front(edges[..i + 1]) == edges[..i];
      assert Front(KeysOf(edges[..i + 1])) == KeysOf(edges[..i]);
      assert KeysOf(edges[..i + 1]) == KeysOf(edges[..i]) + [key];
      UnlistedHasNoSites(edges[..i], key);
      if key !in sites {
        order := order + [key];
      }
      sites := sites[key := (if key in sites then sites[key] else []) + [SiteOf(edges[i])]];
    }
    assert edges[..|edges|] == edges;
  }

  lemma {:induction false} UnlistedHasNoSites(edges: seq<Edge>, key: Relation)
    ensures key !in KeysOf(edges) ==> SitesOf(edges, key) == []
  {
    if edges != [] {
      UnlistedHasNoSites(Front(edges), key);
      assert KeysOf(edges) == KeysOf(Front(edges)) + [KeyOf(Last(edges))];
    }
  }

  /** One side's citations: every location once, in the order of first occurrence. */
  method CiteEdges(edges: seq<Edge>) returns (citations: seq<Site>)
    ensures citations == Distinct(AllSites(edges))
    ensures forall i :: 0 <= i < |edges| ==> Site(edges[i].path, edges[i].line) in citations
    ensures forall x :: x in citations ==> exists i :: 0 <= i < |edges| && x == Site(edges[i].path, edges[i].line)
  {
    citations := [];
    var seen: set<Site> := {};
    for i := 0 to |edges|
      invariant citations == Distinct(AllSites(edges[..i]))
      invariant forall x :: x in seen <==> x in AllSites(edges[..i])
    {
      var at := SiteOf(edges[i]);
      assert Front(AllSites(edges[..i + 1])) == AllSites(edges[..i]);
      assert AllSites(edges[..i + 1]) == AllSites(edges[..i]) + [at];
      if at !in seen {
        seen := seen + {at};
        citations := citations + [at];
      }
    }
    assert edges[..|edges|] == edges;
    DistinctElements(AllSites(edges));
    forall i | 0 <= i < |edges| ensures Site(edges[i].path, edges[i].line) in citations {
      assert AllSites(edges)[i] in AllSites(edges);
    }
  }

  // ---------------------------------------------------------------- classifying

  function KeySet(edges: seq<Edge>): set<Relation> {
    set e | e in edges :: KeyOf(e)
  }

  /** The relations of a list that are among some, and those that are not. */
  function Keep(keys: seq<Relation>, among: set<Relation>): seq<Relation> {
    if keys == [] then []
    else if Last(keys) in among then Keep(Front(keys), among) + [Last(keys)]
    else Keep(Front(keys), among)
  }

  function Drop(keys: seq<Relation>, among: set<Relation>): seq<Relation> {
    if keys == [] then []
    else if Last(keys) in among then Drop(Front(keys), among)
    else Drop(Front(keys), among) + [Last(keys)]
  }

  function Report(keys: seq<Relation>, from: seq<Edge>, to: seq<Edge>): (r: seq<CallRelation>)
    ensures |r| == |keys|
    ensures forall i :: 0 <= i < |r| ==> r[i] == CallRelation(keys[i], SitesOf(from, keys[i]), SitesOf(to, keys[i]))
  {
    seq(|keys|, i requires 0 <= i < |keys| => CallRelation(keys[i], SitesOf(from, keys[i]), SitesOf(to, keys[i])))
  }

  function Relations(edges: seq<Edge>): seq<Relation> { Distinct(KeysOf(edges)) }

  lemma RelationsAreKeys(edges: seq<Edge>)
    ensures forall k :: k in Relations(edges) <==> k in KeySet(edges)
    ensures forall k :: k in KeysOf(edges) <==> k in KeySet(edges)
    ensures NoDuplicates(Relations(edges))
  {
    DistinctElements(KeysOf(edges));
    forall k | k in KeySet(edges) ensures k in KeysOf(edges) {
      var e :| e in edges && KeyOf(e) == k;
      var i :| 0 <= i < |edges| && edges[i] == e;
      assert KeysOf(edges)[i] == k;
    }
  }

  function Removed(from: seq<Edge>, to: seq<Edge>): seq<CallRelation> {
    Report(Drop(Relations(from), KeySet(to)), from, to)
  }

  function Added(from: seq<Edge>, to: seq<Edge>): seq<CallRelation> {
    Report(Drop(Relations(to), KeySet(from)), from, to)
  }

  function Unchanged(from: seq<Edge>, to: seq<Edge>): seq<CallRelation> {
    Report(Keep(Relations(from), KeySet(to)), from, to)
  }

  lemma {:induction false} DropConcat(a: seq<Relation>, b: seq<Relation>, among: set<Relation>)
    ensures Drop(a + b, among) == Drop(a, among) + Drop(b, among)
    ensures Keep(a + b, among) == Keep(a, among) + Keep(b, among)
  {
    if b == [] {
      assert a + b == a;
    } else {
      assert Front(a + b) == a + Front(b) && Last(a + b) == Last(b);
      DropConcat(a, Front(b), among);
    }
  }

  lemma {:induction false} Dropped(keys: seq<Relation>, among: set<Relation>)
    ensures forall k :: k in Drop(keys, among) <==> k in keys && k !in among
    ensures forall k :: k in Keep(keys, among) <==> k in keys && k in among
  {
    if keys != [] {
      assert keys == Front(keys) + [Last(keys)];
      Dropped(Front(keys), among);
    }
  }

  lemma {:induction false} AllIn(keys: seq<Relation>, among: set<Relation>)
    requires forall k :: k in keys ==> k in among
    ensures Drop(keys, among) == [] && Keep(keys, among) == keys
  {
    if keys != [] {
      assert keys == Front(keys) + [Last(keys)];
      AllIn(Front(keys), among);
    }
  }

  lemma {:induction false} NoneIn(keys: seq<Relation>, among: set<Relation>)
    requires forall k :: k in keys ==> k !in among
    ensures Drop(keys, among) == keys && Keep(keys, among) == []
  {
    if keys != [] {
      assert keys == Front(keys) + [Last(keys)];
      NoneIn(Front(keys), among);
    }
  }

  /** What is left of two duplicate-free lists one after the other: the first, then what of the
      second is not in it. */
  lemma {:induction false} DistinctConcat(a: seq<Relation>, b: seq<Relation>, among: set<Relation>)
    requires NoDuplicates(a) && NoDuplicates(b)
    requires forall k :: k in a <==> k in among
    ensures Distinct(a + b) == a + Drop(b, among)
  {
    if b == [] {
      assert a + b == a;
      DistinctIdempotent(a);
    } else {
      assert Front(a + b) == a + Front(b) && Last(a + b) == Last(b);
      DistinctConcat(a, Front(b), among);
      assert Last(b) !in Front(b);
    }
  }

  /** Classifying both sides' relations together is classifying each side's own. */
  lemma ClassifiedTogether(from: seq<Edge>, to: seq<Edge>)
    ensures var all := Distinct(Relations(from) + Relations(to));
            && Drop(all, KeySet(to)) == Drop(Relations(from), KeySet(to))
            && Drop(all, KeySet(from)) == Drop(Relations(to), KeySet(from))
            && Keep(Keep(all, KeySet(from)), KeySet(to)) == Keep(Relations(from), KeySet(to))
  {
    var a, b, f, t := Relations(from), Relations(to), KeySet(from), KeySet(to);
    RelationsAreKeys(from);
    RelationsAreKeys(to);
    hide KeySet, Relations, NoDuplicates, Distinct, Drop, Keep;
    DistinctConcat(a, b, f);
    var rest := Drop(b, f);
    Dropped(b, f);
    DropConcat(a, rest, t);
    DropConcat(a, rest, f);
    AllIn(a, f);
    AllIn(rest, t);
    NoneIn(rest, f);
    assert a + [] == a && [] + rest == rest;
  }

  lemma Snoc(keys: seq<Relation>, x: Relation, f: set<Relation>, t: set<Relation>)
    ensures Drop(keys + [x], t) == (if x in t then Drop(keys, t) else Drop(keys, t) + [x])
    ensures Drop(keys + [x], f) == (if x in f then Drop(keys, f) else Drop(keys, f) + [x])
    ensures Keep(Keep(keys + [x], f), t) == (if x in f && x in t then Keep(Keep(keys, f), t) + [x] else Keep(Keep(keys, f), t))
  {
    assert Front(keys + [x]) == keys;
    assert Front(Keep(keys, f) + [x]) == Keep(keys, f);
  }

  lemma ReportSnoc(keys: seq<Relation>, x: Relation, from: seq<Edge>, to: seq<Edge>)
    ensures Report(keys + [x], from, to) == Report(keys, from, to) + [CallRelation(x, SitesOf(from, x), SitesOf(to, x))]
  {}

  /** The three lists after some keys have been classified. */
  ghost predicate Classified(keys: seq<Relation>, f: seq<Edge>, t: seq<Edge>,
                             added: seq<CallRelation>, removed: seq<CallRelation>, kept: seq<CallRelation>) {
    && removed == Report(Drop(Distinct(keys), KeySet(t)), f, t)
    && added == Report(Drop(Distinct(keys), KeySet(f)), f, t)
    && kept == Report(Keep(Keep(Distinct(keys), KeySet(f)), KeySet(t)), f, t)
  }

  /** Classifying one key more: nothing when it was there, one entry in one list otherwise. */
  lemma ClassifiedMore(keys: seq<Relation>, key: Relation, f: seq<Edge>, t: seq<Edge>,
                       added: seq<CallRelation>, removed: seq<CallRelation>, kept: seq<CallRelation>)
    requires Classified(keys, f, t, added, removed, kept) && (key in KeySet(f) || key in KeySet(t))
    ensures var found := [CallRelation(key, SitesOf(f, key), SitesOf(t, key))];
            if key in keys then Classified(keys + [key], f, t, added, removed, kept)
            else if key in KeySet(f) && key in KeySet(t) then Classified(keys + [key], f, t, added, removed, kept + found)
            else if key in KeySet(f) then Classified(keys + [key], f, t, added, removed + found, kept)
            else Classified(keys + [key], f, t, added + found, removed, kept)
  {
    assert Front(keys + [key]) == keys && Last(keys + [key]) == key;
    var before, fk, tk := Distinct(keys), KeySet(f), KeySet(t);
    hide KeySet, SitesOf;
    Snoc(before, key, fk, tk);
    ReportSnoc(Drop(before, tk), key, f, t);
    ReportSnoc(Drop(before, fk), key, f, t);
    ReportSnoc(Keep(Keep(before, fk), tk), key, f, t);
    hide Drop, Keep, Report;
  }

  /** The classification loop, over from's relations and then to's. */
  method Classify(from: Option<seq<Edge>>, to: Option<seq<Edge>>)
    returns (added: seq<CallRelation>, removed: seq<CallRelation>, kept: seq<CallRelation>)
    ensures added == Added(EdgesOf(from), EdgesOf(to))
    ensures removed == Removed(EdgesOf(from), EdgesOf(to))
    ensures kept == Unchanged(EdgesOf(from), EdgesOf(to))
  {
    hide Classified, KeySet, Drop, Keep, Report, SitesOf, KeysOf, NoDuplicates, Distinct, Added, Removed, Unchanged;
    var fromSites, fromOrder := Group(from);
    var toSites, toOrder := Group(to);
    ghost var f, t := EdgesOf(from), EdgesOf(to);
    var keys := fromOrder + toOrder;
    var seen: set<Relation> := {};
    added, removed, kept := [], [], [];
    RelationsAreKeys(f);
    RelationsAreKeys(t);
    NothingClassified(f, t);
    for i := 0 to |keys|
      invariant forall k :: k in seen <==> k in keys[..i]
      invariant Classified(keys[..i], f, t, added, removed, kept)
    {
      var key := keys[i];
      assert keys[..i + 1] == keys[..i] + [key];
      assert key in fromOrder || key in toOrder by { assert key in keys; }
      ClassifiedMore(keys[..i], key, f, t, added, removed, kept);
      UnlistedHasNoSites(f, key);
      UnlistedHasNoSites(t, key);
      if key in seen {
        continue;
      }
      seen := seen + {key};
      var found := CallRelation(key, if key in fromSites then fromSites[key] else [], if key in toSites then toSites[key] else []);
      if key in fromSites && key in toSites {
        kept := kept + [found];
      } else if key in fromSites {
        removed := removed + [found];
      } else {
        added := added + [found];
      }
    }
    assert keys[..|keys|] == keys;
    ClassifiedAll(f, t, added, removed, kept);
  }

  lemma NothingClassified(f: seq<Edge>, t: seq<Edge>)
    ensures Classified([], f, t, [], [], [])
  {}

  lemma ClassifiedAll(f: seq<Edge>, t: seq<Edge>, added: seq<CallRelation>, removed: seq<CallRelation>, kept: seq<CallRelation>)
    requires Classified(Relations(f) + Relations(t), f, t, added, removed, kept)
    ensures added == Added(f, t) && removed == Removed(f, t) && kept == Unchanged(f, t)
  {
    ClassifiedTogether(f, t);
  }

  // ---------------------------------------------------------------- what the comparison means

  function Names(r: seq<CallRelation>): (keys: seq<Relation>)
    ensures |keys| == |r| && forall i :: 0 <= i < |r| ==> keys[i] == r[i].relation
  {
    seq(|r|, i requires 0 <= i < |r| => r[i].relation)
  }

  lemma ReportNames(keys: seq<Relation>, from: seq<Edge>, to: seq<Edge>)
    ensures Names(Report(keys, from, to)) == keys
  {}

  lemma {:induction false} DropUnique(keys: seq<Relation>, among: set<Relation>)
    requires NoDuplicates(keys)
    ensures NoDuplicates(Drop(keys, among)) && NoDuplicates(Keep(keys, among))
  {
    if keys != [] {
      assert keys == Front(keys) + [Last(keys)];
      DropUnique(Front(keys), among);
      Dropped(Front(keys), among);
    }
  }

  /** Somebody calls somebody in a file: some edge of the graph says so, on whatever line. */
  ghost predicate HasCall(edges: seq<Edge>, k: Relation) {
    exists e :: e in edges && e.caller == k.caller && e.callee == k.callee && e.path == k.path
  }

  lemma CallsExactly(edges: seq<Edge>)
    ensures forall k :: k in KeySet(edges) <==> HasCall(edges, k)
  {
    forall k | HasCall(edges, k) ensures k in KeySet(edges) {
      var e :| e in edges && e.caller == k.caller && e.callee == k.callee && e.path == k.path;
      assert KeyOf(e) == k;
    }
  }

  /** The three lists partition the relations of both sides: none is listed twice, a removed one is
      only from's, an added one only to's, an unchanged one both sides'. */
  lemma Partition(from: seq<Edge>, to: seq<Edge>)
    ensures NoDuplicates(Names(Added(from, to))) && NoDuplicates(Names(Removed(from, to))) && NoDuplicates(Names(Unchanged(from, to)))
    ensures forall k :: k in Names(Removed(from, to)) <==> HasCall(from, k) && !HasCall(to, k)
    ensures forall k :: k in Names(Added(from, to)) <==> HasCall(to, k) && !HasCall(from, k)
    ensures forall k :: k in Names(Unchanged(from, to)) <==> HasCall(from, k) && HasCall(to, k)
  {
    CallsExactly(from);
    CallsExactly(to);
    RelationsAreKeys(from);
    RelationsAreKeys(to);
    ReportNames(Drop(Relations(from), KeySet(to)), from, to);
    ReportNames(Drop(Relations(to), KeySet(from)), from, to);
    ReportNames(Keep(Relations(from), KeySet(to)), from, to);
    DropUnique(Relations(from), KeySet(to));
    DropUnique(Relations(to), KeySet(from));
    Dropped(Relations(from), KeySet(to));
    Dropped(Relations(to), KeySet(from));
    hide Report, Drop, Keep, Relations, KeySet, NoDuplicates, HasCall;
  }

  /** A relation's evidence, as often as each line was listed: every call site of the side is kept,
      repetitions included. */
  lemma {:induction false} SitesRecoverEdges(edges: seq<Edge>, e: Edge)
    ensures multiset(SitesOf(edges, Relation(e.caller, e.callee, e.path)))[Site(e.path, e.line)] == multiset(edges)[e]
  {
    if edges != [] {
      SitesRecoverEdges(Front(edges), e);
      assert edges == Front(edges) + [Last(edges)];
      var last := Last(edges);
      assert last == e <==> KeyOf(last) == KeyOf(e) && SiteOf(last) == SiteOf(e);
    }
  }

  /** And they are in the order they were listed in. */
  lemma {:induction false} SitesInOrder(a: seq<Edge>, e: Edge, b: seq<Edge>, key: Relation)
    ensures SitesOf(a + [e] + b, key) ==
            SitesOf(a, key) + (if Relation(e.caller, e.callee, e.path) == key then [Site(e.path, e.line)] else []) + SitesOf(b, key)
  {
    var s := a + [e] + b;
    if b == [] {
      assert Front(s) == a && Last(s) == e;
    } else {
      assert Front(s) == a + [e] + Front(b) && Last(s) == Last(b);
      SitesInOrder(a, e, Front(b), key);
    }
  }

  // the order of the three lists

  lemma {:induction false} FilteredOrder(keys: seq<Relation>, among: set<Relation>, kept: seq<Relation>, i: nat, j: nat) returns (k: nat, l: nat)
    requires (kept == Drop(keys, among) || kept == Keep(keys, among)) && i < j < |kept|
    ensures k < l < |keys| && keys[k] == kept[i] && keys[l] == kept[j]
  {
    var last := |keys| - 1;
    var dropping := kept == Drop(keys, among);
    var before := if dropping then Drop(Front(keys), among) else Keep(Front(keys), among);
    if j < |before| {
      k, l := FilteredOrder(Front(keys), among, before, i, j);
    } else {
      Dropped(Front(keys), among);
      assert before[i] in before;
      k :| 0 <= k < last && Front(keys)[k] == before[i];
      l := last;
    }
  }

  /** The first of the two relations is called at some line of the graph before the second is at any. */
  ghost predicate CalledBefore(edges: seq<Edge>, k: Relation, l: Relation) {
    exists a :: 0 <= a < |edges| && KeyOf(edges[a]) == k && forall b :: 0 <= b < |edges| && KeyOf(edges[b]) == l ==> a < b
  }

  lemma FilteredCalledBefore(edges: seq<Edge>, among: set<Relation>, kept: seq<Relation>, i: nat, j: nat)
    requires (kept == Drop(Relations(edges), among) || kept == Keep(Relations(edges), among)) && i < j < |kept|
    ensures CalledBefore(edges, kept[i], kept[j])
  {
    var k, l := FilteredOrder(Relations(edges), among, kept, i, j);
    DistinctOrder(KeysOf(edges), k, l);
    var a := FirstIndex(KeysOf(edges), kept[i]);
    forall b | 0 <= b < |edges| && KeyOf(edges[b]) == kept[j] ensures a < b {
      FirstIsFirst(KeysOf(edges), kept[j], b);
    }
    assert KeyOf(edges[a]) == kept[i];
  }

  /** What was removed and what is unchanged is listed in the order from's graph first calls it, and what
      was added in to's. */
  lemma ListedInOrder(from: seq<Edge>, to: seq<Edge>, i: nat, j: nat)
    requires i < j
    ensures j < |Removed(from, to)| ==> CalledBefore(from, Removed(from, to)[i].relation, Removed(from, to)[j].relation)
    ensures j < |Unchanged(from, to)| ==> CalledBefore(from, Unchanged(from, to)[i].relation, Unchanged(from, to)[j].relation)
    ensures j < |Added(from, to)| ==> CalledBefore(to, Added(from, to)[i].relation, Added(from, to)[j].relation)
  {
    hide Drop, Keep, Relations, KeySet, CalledBefore;
    if j < |Removed(from, to)| { FilteredCalledBefore(from, KeySet(to), Drop(Relations(from), KeySet(to)), i, j); }
    if j < |Unchanged(from, to)| { FilteredCalledBefore(from, KeySet(to), Keep(Relations(from), KeySet(to)), i, j); }
    if j < |Added(from, to)| { FilteredCalledBefore(to, KeySet(from), Drop(Relations(to), KeySet(from)), i, j); }
  }

  /** One side's evidence for a relation in a list: the sites it is listed with. */
  function FromEvidence(r: seq<CallRelation>, key: Relation): seq<Site> {
    if r == [] then [] else if r[0].relation == key then r[0].fromEvidence else FromEvidence(r[1..], key)
  }

  function ToEvidence(r: seq<CallRelation>, key: Relation): seq<Site> {
    if r == [] then [] else if r[0].relation == key then r[0].toEvidence else ToEvidence(r[1..], key)
  }

  lemma {:induction false} EvidenceOf(keys: seq<Relation>, from: seq<Edge>, to: seq<Edge>, key: Relation)
    ensures FromEvidence(Report(keys, from, to), key) == if key in keys then SitesOf(from, key) else []
    ensures ToEvidence(Report(keys, from, to), key) == if key in keys then SitesOf(to, key) else []
  {
    if keys != [] {
      assert Report(keys, from, to)[1..] == Report(keys[1..], from, to);
      EvidenceOf(keys[1..], from, to, key);
      assert keys == [keys[0]] + keys[1..];
    }
  }

  /** Nothing is lost: the evidence on the from side, of the removed and the unchanged relations, gives
      back from's edges with their multiplicities, and that on the to side, of the added and the
      unchanged, gives back to's. */
  lemma Lossless(from: seq<Edge>, to: seq<Edge>, e: Edge)
    ensures var key, at := Relation(e.caller, e.callee, e.path), Site(e.path, e.line);
            && multiset(FromEvidence(Removed(from, to), key))[at] + multiset(FromEvidence(Unchanged(from, to), key))[at] == multiset(from)[e]
            && multiset(ToEvidence(Added(from, to), key))[at] + multiset(ToEvidence(Unchanged(from, to), key))[at] == multiset(to)[e]
  {
    var key := KeyOf(e);
    RelationsAreKeys(from);
    RelationsAreKeys(to);
    Dropped(Relations(from), KeySet(to));
    Dropped(Relations(to), KeySet(from));
    EvidenceOf(Drop(Relations(from), KeySet(to)), from, to, key);
    EvidenceOf(Drop(Relations(to), KeySet(from)), from, to, key);
    EvidenceOf(Keep(Relations(from), KeySet(to)), from, to, key);
    SitesRecoverEdges(from, e);
    SitesRecoverEdges(to, e);
    UnlistedHasNoSites(from, key);
    UnlistedHasNoSites(to, key);
    hide Drop, Keep, Report, Relations, KeySet, SitesOf, FromEvidence, ToEvidence;
  }

  function Swapped(r: seq<CallRelation>): (t: seq<CallRelation>)
    ensures |t| == |r|
    ensures forall i :: 0 <= i < |r| ==> t[i] == CallRelation(r[i].relation, r[i].toEvidence, r[i].fromEvidence)
  {
    seq(|r|, i requires 0 <= i < |r| => CallRelation(r[i].relation, r[i].toEvidence, r[i].fromEvidence))
  }

  /** Asking the other way round swaps what was added and what was removed, in the same order and
      with the evidence exchanged. What is unchanged is the same set of relations. */
  lemma SwapSides(from: seq<Edge>, to: seq<Edge>)
    ensures Added(to, from) == Swapped(Removed(from, to))
    ensures Removed(to, from) == Swapped(Added(from, to))
    ensures forall k :: k in Names(Unchanged(to, from)) <==> k in Names(Unchanged(from, to))
    ensures |Unchanged(to, from)| == |Unchanged(from, to)|
  {
    Partition(from, to);
    Partition(to, from);
    SameSize(Names(Unchanged(to, from)), Names(Unchanged(from, to)));
  }

  /** The same relation carries the same evidence, exchanged. */
  lemma SwapUnchanged(from: seq<Edge>, to: seq<Edge>, i: nat, j: nat)
    requires i < |Unchanged(from, to)| && j < |Unchanged(to, from)|
    requires Unchanged(from, to)[i].relation == Unchanged(to, from)[j].relation
    ensures Unchanged(to, from)[j] == Swapped(Unchanged(from, to))[i]
  {}

  lemma {:induction false} SameSize(a: seq<Relation>, b: seq<Relation>)
    requires NoDuplicates(a) && NoDuplicates(b) && forall k :: k in a <==> k in b
    ensures |a| == |b|
  {
    AsSet(a);
    AsSet(b);
    assert (set k | k in a) == (set k | k in b);
  }

  lemma {:induction false} AsSet(a: seq<Relation>)
    requires NoDuplicates(a)
    ensures |set k | k in a| == |a|
  {
    if a != [] {
      AsSet(Front(a));
      assert a == Front(a) + [Last(a)];
      assert (set k | k in a) == (set k | k in Front(a)) + {Last(a)};
    }
  }

  /** Comparing a graph with itself finds nothing but unchanged relations, all of them in order. */
  lemma SelfComparison(edges: seq<Edge>)
    ensures Added(edges, edges) == [] && Removed(edges, edges) == []
    ensures Names(Unchanged(edges, edges)) == Relations(edges)
  {
    RelationsAreKeys(edges);
    AllIn(Relations(edges), KeySet(edges));
  }

  // ---------------------------------------------------------------- the whole comparison

  datatype Graph = Graph(symbol: string, edges: seq<Edge>)

  datatype Code = SymbolNotFound | SymbolAmbiguous | OtherCode

  datatype Result<T> = Ok(value: T) | Err(code: Code)

  datatype Presence = Both | FromOnly | ToOnly

  datatype Comparison = Comparison(
    presence: Presence,
    from: Option<seq<Site>>,
    to: Option<seq<Site>>,
    added: seq<CallRelation>,
    removed: seq<CallRelation>,
    kept: seq<CallRelation>)

  /** A version that does not have the symbol is not yet a failure; everything else that went wrong
      is. */
  function TraceSide(answer: Result<Graph>): Result<Option<Graph>> {
    match answer
    case Ok(graph) => Ok(Some(graph))
    case Err(code) => if code == SymbolNotFound then Ok(None) else Err(code)
  }

  function EdgesIn(graph: Option<Graph>): Option<seq<Edge>> {
    match graph
    case None => None
    case Some(g) => Some(g.edges)
  }

  /** The comparison of two sides' answers: refused when a side could not be asked, from's trouble
      first, or when neither version has the symbol; otherwise a lossless partition of both sides'
      relations, with an absent side compared as one that calls nothing. */
  method CompareCalls(fromAnswer: Result<Graph>, toAnswer: Result<Graph>) returns (r: Result<Comparison>)
    ensures fromAnswer.Err? && fromAnswer.code != SymbolNotFound ==> r == Err(fromAnswer.code)
    ensures (fromAnswer.Ok? || fromAnswer.code == SymbolNotFound) && toAnswer.Err? && toAnswer.code != SymbolNotFound ==> r == Err(toAnswer.code)
    ensures fromAnswer == Err(SymbolNotFound) && toAnswer == Err(SymbolNotFound) ==> r == Err(SymbolNotFound)
    ensures r.Ok? <==>
              && (fromAnswer.Ok? || fromAnswer.code == SymbolNotFound) && (toAnswer.Ok? || toAnswer.code == SymbolNotFound)
              && (fromAnswer.Ok? || toAnswer.Ok?)
    ensures r.Ok? ==>
              && (r.value.presence == if fromAnswer.Ok? && toAnswer.Ok? then Both else if fromAnswer.Ok? then FromOnly else ToOnly)
              && (r.value.from.Some? <==> fromAnswer.Ok?) && (r.value.to.Some? <==> toAnswer.Ok?)
              && (fromAnswer.Ok? ==> r.value.from.value == Distinct(AllSites(fromAnswer.value.edges)))
              && (toAnswer.Ok? ==> r.value.to.value == Distinct(AllSites(toAnswer.value.edges)))
    ensures r.Ok? ==>
              var f := if fromAnswer.Ok? then fromAnswer.value.edges else [];
              var t := if toAnswer.Ok? then toAnswer.value.edges else [];
              r.value.added == Added(f, t) && r.value.removed == Removed(f, t) && r.value.kept == Unchanged(f, t)
  {
    var from := TraceSide(fromAnswer);
    if from.Err? {
      return Err(from.code);
    }
    var to := TraceSide(toAnswer);
    if to.Err? {
      return Err(to.code);
    }
    var presence;
    if from.value.None? && to.value.None? {
      return Err(SymbolNotFound);
    } else if from.value.None? {
      presence := ToOnly;
    } else if to.value.None? {
      presence := FromOnly;
    } else {
      presence := Both;
    }
    var fromSide, toSide := None, None;
    if from.value.Some? {
      var cited := CiteEdges(from.value.value.edges);
      fromSide := Some(cited);
    }
    if to.value.Some? {
      var cited := CiteEdges(to.value.value.edges);
      toSide := Some(cited);
    }
    var added, removed, kept := Classify(EdgesIn(from.value), EdgesIn(to.value));
    r := Ok(Comparison(presence, fromSide, toSide, added, removed, kept));
  }
}
