/** Asking the graph engine, page by page, whether it holds a graph. */
module GraphPaging {
  import opened Options

  /** One answer: a page of names, whether more follow and where, or no usable answer. */
  datatype Answer = Page(names: seq<string>, hasMore: bool, next: Option<int>) | Unusable

  /** What the check concludes; Cancelled when the caller gave up first. */
  datatype Verdict = Held | NotHeld | NotUseful | Cancelled

  /** An engine answers the n-th call, which asks from an offset. */
  type Engine = (nat, int) -> Answer

  function Next(page: Answer, offset: int): int
    requires page.Page?
  {
    match page.next
    case Some(n) => n
    case None => offset + |page.names|
  }

  /** The conclusion a page allows by itself, or None when the next one has to be asked for. */
  function Concludes(page: Answer, offset: int, graph: string): Option<Verdict> {
    if page.Unusable? then Some(NotUseful)
    else if graph in page.names then Some(Held)
    else if !page.hasMore then Some(NotHeld)
    else if page.names == [] then Some(NotUseful)
    else if page.next.Some? && page.next.value <= offset then Some(NotUseful)
    else None
  }

  /** Every call asks further on than the one before, until one concludes. */
  ghost predicate Walked(engine: Engine, graph: string, offsets: seq<int>) {
    && offsets != [] && offsets[0] == 0
    && forall k :: 0 <= k < |offsets| - 1 ==>
         && Concludes(engine(k, offsets[k]), offsets[k], graph).None?
         && engine(k, offsets[k]).Page?
         && offsets[k + 1] == Next(engine(k, offsets[k]), offsets[k]) > offsets[k]
  }

  /** A walk of at most so many calls that ends in this verdict: the one the last page asked for
      allows, or none when the caller gave up on a call. */
  ghost predicate EndsIn(engine: Engine, graph: string, patience: nat, offsets: seq<int>, verdict: Verdict) {
    && Walked(engine, graph, offsets) && |offsets| <= patience + 1
    && var k := |offsets| - 1;
       if verdict.Cancelled? then k == patience
       else k < patience && Concludes(engine(k, offsets[k]), offsets[k], graph) == Some(verdict)
  }

  method VerifyGraph(engine: Engine, graph: string, patience: nat) returns (verdict: Verdict)
    ensures exists offsets :: EndsIn(engine, graph, patience, offsets, verdict)
  {
    var offset, calls := 0, 0;
    ghost var offsets := [0];
    while calls < patience
      invariant calls <= patience && |offsets| == calls + 1 && offsets[calls] == offset
      invariant Walked(engine, graph, offsets)
      decreases patience - calls
    {
      var answer := engine(calls, offset);
      if answer.Unusable? {
        assert EndsIn(engine, graph, patience, offsets, NotUseful);
        return NotUseful;
      }
      for i := 0 to |answer.names|
        invariant graph !in answer.names[..i]
      {
        if answer.names[i] == graph {
          assert EndsIn(engine, graph, patience, offsets, Held);
          return Held;
        }
      }
      assert answer.names[..|answer.names|] == answer.names;
      if !answer.hasMore {
        assert EndsIn(engine, graph, patience, offsets, NotHeld);
        return NotHeld;
      }
      if |answer.names| == 0 {
        assert EndsIn(engine, graph, patience, offsets, NotUseful);
        return NotUseful;
      }
      if answer.next.Some? {
        if answer.next.value <= offset {
          assert EndsIn(engine, graph, patience, offsets, NotUseful);
          return NotUseful;
        }
        offset := answer.next.value;
      } else {
        offset := offset + |answer.names|;
      }
      offsets := offsets + [offset];
      calls := calls + 1;
    }
    assert EndsIn(engine, graph, patience, offsets, Cancelled);
    return Cancelled;
  }

  // ---------------------------------------------------------------- an engine that answers honestly

  /** An honest page of a list of graphs: a stretch of it from the offset, of any length but none
      while more are promised, saying whether more follow, and where or leaving that to be counted. */
  ghost predicate Honest(page: Answer, offset: int, graphs: seq<string>) {
    && 0 <= offset <= |graphs| && page.Page?
    && exists end :: Stretch(page, offset, end, graphs)
  }

  ghost predicate Stretch(page: Answer, offset: int, end: int, graphs: seq<string>) {
    && 0 <= offset <= end <= |graphs| && page.Page? && page.names == graphs[offset..end]
    && (page.hasMore <==> end < |graphs|)
    && (page.hasMore ==> offset < end && (page.next.None? || page.next == Some(end)))
  }

  /** An engine that holds these graphs throughout; one that does not paginate sends them all. */
  ghost predicate HonestEngine(engine: Engine, graphs: seq<string>) {
    forall n: nat, offset :: 0 <= offset <= |graphs| ==> Honest(engine(n, offset), offset, graphs)
  }

  /** Up to the last call an honest engine's pages cover the list, in order and without a gap. */
  lemma {:induction false} Covered(engine: Engine, graph: string, graphs: seq<string>, offsets: seq<int>, k: nat)
    requires HonestEngine(engine, graphs) && Walked(engine, graph, offsets) && k < |offsets|
    ensures k <= offsets[k] < |graphs| || (k == 0 && offsets[k] <= |graphs|)
    ensures 0 <= offsets[k] <= |graphs| && graph !in graphs[..offsets[k]]
  {
    if k > 0 {
      Covered(engine, graph, graphs, offsets, k - 1);
      var page, offset := engine(k - 1, offsets[k - 1]), offsets[k - 1];
      assert Honest(page, offset, graphs);
      var end :| Stretch(page, offset, end, graphs);
      assert Concludes(page, offset, graph).None?;
      assert offsets[k] == end;
      assert graphs[..end] == graphs[..offset] + graphs[offset..end];
    }
  }

  /** What one honest page allows to be concluded of everything up to its end. */
  lemma LastPage(page: Answer, offset: int, end: int, graphs: seq<string>, graph: string)
    requires Stretch(page, offset, end, graphs) && graph !in graphs[..offset]
    ensures Concludes(page, offset, graph) == Some(Held) ==> graph in graphs
    ensures Concludes(page, offset, graph) == Some(NotHeld) ==> graph !in graphs
    ensures Concludes(page, offset, graph) != Some(NotUseful)
  {
    assert forall g :: g in graphs[offset..end] ==> g in graphs;
    if end == |graphs| {
      assert graphs == graphs[..offset] + graphs[offset..end];
    }
  }

  /** Against an honest engine the verdict is the truth, and a caller who waits for as many calls as
      there are graphs, and one, gets it. */
  lemma VerdictIsTrue(engine: Engine, graph: string, graphs: seq<string>, offsets: seq<int>, patience: nat, verdict: Verdict)
    requires HonestEngine(engine, graphs) && EndsIn(engine, graph, patience, offsets, verdict)
    ensures verdict.Held? ==> graph in graphs
    ensures verdict.NotHeld? ==> graph !in graphs
    ensures !verdict.NotUseful?
    ensures patience > |graphs| ==> verdict == if graph in graphs then Held else NotHeld
  {
    hide Walked, Concludes, Stretch;
    var k := |offsets| - 1;
    assert offsets != [] by { WalkStarts(engine, graph, offsets); }
    Covered(engine, graph, graphs, offsets, k);
    if !verdict.Cancelled? {
      assert Honest(engine(k, offsets[k]), offsets[k], graphs);
      var end :| Stretch(engine(k, offsets[k]), offsets[k], end, graphs);
      LastPage(engine(k, offsets[k]), offsets[k], end, graphs, graph);
    }
  }

  /** What a verdict rests on, whatever the engine: held was seen on the last page; not held was seen on no
      page, of which each but the last promised more; and the answers were of no use when the last was
      none, or promised more and listed nothing, or did not get any further. */
  lemma VerdictRests(engine: Engine, graph: string, offsets: seq<int>, patience: nat, verdict: Verdict)
    requires EndsIn(engine, graph, patience, offsets, verdict) && !verdict.Cancelled?
    ensures offsets != []
    ensures forall k :: 0 <= k < |offsets| - 1 ==> var page := engine(k, offsets[k]); page.Page? && page.hasMore && page.names != [] && graph !in page.names
    ensures var k := |offsets| - 1;
            var last := engine(k, offsets[k]);
            && (verdict.Held? <==> last.Page? && graph in last.names)
            && (verdict.NotHeld? <==> last.Page? && graph !in last.names && !last.hasMore)
            && (verdict.NotUseful? <==>
                  || last.Unusable?
                  || (graph !in last.names && last.hasMore && (last.names == [] || (last.next.Some? && last.next.value <= offsets[k]))))
  {
    WalkStarts(engine, graph, offsets);
    forall k | 0 <= k < |offsets| - 1
      ensures var page := engine(k, offsets[k]); page.Page? && page.hasMore && page.names != [] && graph !in page.names
    {
      assert Concludes(engine(k, offsets[k]), offsets[k], graph).None?;
    }
  }

  lemma WalkStarts(engine: Engine, graph: string, offsets: seq<int>)
    requires Walked(engine, graph, offsets)
    ensures offsets != []
  {}
}
