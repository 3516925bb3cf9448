/** The instance walk over a browse source: adapters/asyncua/browse.py on top of upstream.py. */
module Browse {
  import opened Neutral
  import opened AddressWalk
  import opened BrowsePaging
  import opened WalkCoverage

  /** The address space a server holds, Variables with their own data attributes. */
  function SpaceOf(server: Server, rootInfo: string -> Option<NodeInfo>): Space {
    Space(rootInfo, p => InformedAll(server, ChildrenOf(p, server.refs(p))))
  }

  lemma SpaceIsClosed(server: Server, rootInfo: string -> Option<NodeInfo>)
    requires server.Lawful()
    ensures Closed(server.ids, SpaceOf(server, rootInfo))
  {
    var space := SpaceOf(server, rootInfo);
    forall p, i | 0 <= i < |space.children(p)| ensures space.children(p)[i].info.nodeId in server.ids {
      assert server.Mentions(server.refs(p));
    }
  }

  /** Popping a batch and meeting its children leaves less to do; a faultless batch
      advances the walk like its parents one by one. */
  lemma BatchAdvances(
    cfg: Config, server: Server, space: Space, w: Walk, batch: seq<string>, queue: seq<string>,
    children: seq<BrowsedChild>, faultless: bool)
    requires forall p :: space.children(p) == InformedAll(server, ChildrenOf(p, server.refs(p)))
    requires Closed(server.ids, space) && Within(server.ids, children)
    requires ToSet(w.queue) <= server.ids && w.queue == batch + queue && batch != []
    requires faultless ==> children == InformedAll(server, TrueChildren(server, batch))
    ensures var after := VisitAll(cfg, w.(queue := queue, expanded := w.expanded + batch), children);
      && ToSet(after.queue) <= server.ids
      && Work(server.ids, after) < Work(server.ids, w)
      && (faultless ==> Bfs(cfg, space, server.ids, after) == Bfs(cfg, space, server.ids, w))
  {
    assert w.queue[..|batch|] == batch && w.queue[|batch|..] == queue;
    VisitAllWorks(cfg, server.ids, w.(queue := queue, expanded := w.expanded + batch), children);
    if faultless {
      TrueChildrenIsFlatten(server, space, batch);
      BatchRefinesBfs(cfg, space, server.ids, w, |batch|);
    }
  }

  // ------------------------------------------------------------------ what a run has asked

  /** One batch of a run: when it was browsed, for which parents, how many children came of it, whether their
      metadata stayed unread, and when the batch was done. */
  datatype Asked = Asked(tick: nat, parents: seq<string>, children: nat, unread: bool, end: nat)

  function Requests(run: seq<Asked>): seq<Request> {
    seq(|run|, k requires 0 <= k < |run| => Request(|run[k].parents|, run[k].children))
  }

  /** All parents asked about, in order. */
  function Parents(run: seq<Asked>): seq<string>
    decreases |run|
  {
    if run == [] then [] else Parents(run[..|run| - 1]) + run[|run| - 1].parents
  }

  /** The request was answered None or with too few results, or its Read failed: no counter shows that. */
  predicate LostSilently(server: Server, a: Asked) {
    || server.browse(a.tick, a.parents).None?
    || |server.browse(a.tick, a.parents).value| != |a.parents|
    || a.unread
  }

  ghost predicate SomeLost(server: Server, run: seq<Asked>) {
    exists k :: 0 <= k < |run| && LostSilently(server, run[k])
  }

  /** A Read left undone is one the server failed, right before the batch was done. */
  ghost predicate ReadsFailed(server: Server, run: seq<Asked>) {
    forall k :: 0 <= k < |run| && run[k].unread ==> run[k].end > 0 && server.readFails(run[k].end - 1)
  }

  /** Until something is lost silently the run asks about the parents `expanded` lists, in that order. */
  ghost predicate AsksInOrder(server: Server, run: seq<Asked>, expanded: seq<string>) {
    forall k :: 0 <= k < |run| ==> InOrderAt(server, run[..k], run[k], expanded)
  }

  ghost predicate InOrderAt(server: Server, before: seq<Asked>, a: Asked, expanded: seq<string>) {
    !SomeLost(server, before) ==> Parents(before) + a.parents <= expanded
  }

  /** A server that answers every Browse in full and never fails a Read loses nothing. */
  lemma ForthcomingLosesNothing(server: Server, run: seq<Asked>)
    requires server.Forthcoming() && ReadsFailed(server, run)
    ensures !SomeLost(server, run)
  {
    forall k | 0 <= k < |run| ensures !LostSilently(server, run[k]) {
      assert server.browse(run[k].tick, run[k].parents).Some?;
    }
  }

  lemma RunGrows(server: Server, run: seq<Asked>, a: Asked)
    ensures SomeLost(server, run + [a]) <==> SomeLost(server, run) || LostSilently(server, a)
    ensures Parents(run + [a]) == Parents(run) + a.parents
    ensures Requests(run + [a]) == Requests(run) + [Request(|a.parents|, a.children)]
  {
    var more := run + [a];
    assert more[..|run|] == run && more[|run|] == a;
    if SomeLost(server, run) {
      var k :| 0 <= k < |run| && LostSilently(server, run[k]);
      assert LostSilently(server, more[k]);
    }
  }

  lemma OrderGrows(server: Server, run: seq<Asked>, a: Asked, expanded: seq<string>)
    requires AsksInOrder(server, run, expanded)
    requires !SomeLost(server, run) ==> Parents(run) + a.parents <= expanded
    ensures AsksInOrder(server, run + [a], expanded)
  {
    var more := run + [a];
    forall k | 0 <= k < |more| ensures InOrderAt(server, more[..k], more[k], expanded) {
      assert more[..k] == run[..k];
      assert k == |run| ==> run[..k] == run;
    }
  }

  lemma BudgetsGrow(trace: seq<Request>, next: Request, maxParents: int, maxChildren: int)
    requires KeepsBudgets(trace, maxParents, maxChildren) && Fits(trace, next.parents, maxParents, maxChildren)
    ensures KeepsBudgets(trace + [next], maxParents, maxChildren)
    ensures ParentsIn(trace + [next]) == ParentsIn(trace) + next.parents
    ensures ChildrenIn(trace + [next]) == ChildrenIn(trace) + next.children
  {
    assert (trace + [next])[..|trace|] == trace;
  }

  /** The counters of failures only ever grow. */
  predicate FailuresGrow(source: BrowseSource, was: (nat, nat, nat, nat, nat, nat))
    reads source
  {
    source.unrecoverable >= was.2 && source.nextStarved >= was.3 && source.nextOtherBad >= was.4
        && source.parentBad >= was.5
  }

  /** One batch. */
  method BrowseBatch(source: BrowseSource, batch: seq<string>)
    returns (raised: bool, children: seq<BrowsedChild>, ghost asked: Asked)
    requires source.server.Lawful() && batch != []
    modifies source
    ensures Within(source.server.ids, children)
    ensures FailuresGrow(source, old(source.Counters()))
    ensures asked.tick == old(source.tick) && asked.parents == batch && asked.children == |children|
    ensures asked.unread ==> asked.end > 0 && source.server.readFails(asked.end - 1)
    ensures !raised && !LostSilently(source.server, asked) && source.FailuresAsBefore(old(source.Counters())) ==>
      children == InformedAll(source.server, TrueChildren(source.server, batch))
  {
    ghost var tick := source.tick;
    var unread;
    raised, children, unread := source.BrowseChildren(batch);
    asked := Asked(tick, batch, |children|, unread, source.tick);
    assert batch[..|batch|] == batch;
  }

  /** Where a run stands that has asked `run`; `counted` says that no counter of failures has moved. */
  ghost predicate OnCourse(cfg: Config, space: Space, server: Server, goal: Walk, run: seq<Asked>, w: Walk,
      counted: bool)
    requires Closed(server.ids, space)
  {
    && ToSet(w.queue) <= server.ids && w.expanded == Parents(run) && ReadsFailed(server, run)
    && (counted ==> AsksInOrder(server, run, goal.expanded))
    && (counted && !SomeLost(server, run) ==> Bfs(cfg, space, server.ids, w) == goal)
  }

  /** One more batch keeps a run on course, and even one that raises was asked for in order. */
  lemma StepOnCourse(
    cfg: Config, space: Space, server: Server, goal: Walk, run: seq<Asked>, w: Walk, batch: seq<string>,
    queue: seq<string>, asked: Asked, children: seq<BrowsedChild>, failed: bool, counted: bool)
    requires Closed(server.ids, space) && Within(server.ids, children)
    requires forall p :: space.children(p) == InformedAll(server, ChildrenOf(p, server.refs(p)))
    requires OnCourse(cfg, space, server, goal, run, w, counted) && w.queue == batch + queue && batch != []
    requires asked.parents == batch && asked.children == |children|
    requires asked.unread ==> asked.end > 0 && server.readFails(asked.end - 1)
    requires counted && !failed && !LostSilently(server, asked) ==>
        children == InformedAll(server, TrueChildren(server, batch))
    ensures Requests(run + [asked]) == Requests(run) + [Request(|batch|, |children|)]
    ensures var more, after := run + [asked], VisitAll(cfg, w.(queue := queue, expanded := w.expanded + batch),
        children);
      && ReadsFailed(server, more) && (counted ==> AsksInOrder(server, more, goal.expanded))
      && Parents(more) == w.expanded + batch
      && (!failed ==>
          OnCourse(cfg, space, server, goal, more, after, counted) && Work(server.ids, after) < Work(server.ids, w))
  {
    StepInOrder(cfg, space, server, goal, run, w, batch, queue, asked, counted);
    StepAdvances(cfg, space, server, run, w, batch, queue, asked, children, counted && !failed);
  }

  lemma StepInOrder(
    cfg: Config, space: Space, server: Server, goal: Walk, run: seq<Asked>, w: Walk, batch: seq<string>,
    queue: seq<string>, asked: Asked, counted: bool)
    requires Closed(server.ids, space)
    requires OnCourse(cfg, space, server, goal, run, w, counted) && w.queue == batch + queue && asked.parents == batch
    requires asked.unread ==> asked.end > 0 && server.readFails(asked.end - 1)
    ensures ReadsFailed(server, run + [asked])
    ensures counted ==> AsksInOrder(server, run + [asked], goal.expanded)
  {
    if counted {
      if !SomeLost(server, run) {
        BfsExpandsQueue(cfg, space, server.ids, w);
        assert w.expanded + w.queue == (w.expanded + batch) + queue;
      }
      OrderGrows(server, run, asked, goal.expanded);
    }
  }

  lemma StepAdvances(
    cfg: Config, space: Space, server: Server, run: seq<Asked>, w: Walk, batch: seq<string>, queue: seq<string>,
    asked: Asked, children: seq<BrowsedChild>, clean: bool)
    requires Closed(server.ids, space) && Within(server.ids, children)
    requires forall p :: space.children(p) == InformedAll(server, ChildrenOf(p, server.refs(p)))
    requires ToSet(w.queue) <= server.ids && w.expanded == Parents(run) && w.queue == batch + queue && batch != []
    requires asked.parents == batch && asked.children == |children|
    requires clean && !LostSilently(server, asked) ==> children == InformedAll(server, TrueChildren(server, batch))
    ensures Requests(run + [asked]) == Requests(run) + [Request(|batch|, |children|)]
    ensures SomeLost(server, run + [asked]) <==> SomeLost(server, run) || LostSilently(server, asked)
    ensures var after := VisitAll(cfg, w.(queue := queue, expanded := w.expanded + batch), children);
      && ToSet(after.queue) <= server.ids && after.expanded == Parents(run + [asked]) == w.expanded + batch
      && Work(server.ids, after) < Work(server.ids, w)
      && (clean && !LostSilently(server, asked) ==>
          Bfs(cfg, space, server.ids, after) == Bfs(cfg, space, server.ids, w))
  {
    RunGrows(server, run, asked);
    BatchAdvances(cfg, server, space, w, batch, queue, children, clean && !LostSilently(server, asked));
    VisitAllKeepsExpanded(cfg, w.(queue := queue, expanded := w.expanded + batch), children);
  }

  /** The totals a run keeps, and its budgets. */
  ghost predicate Budgeted(run: seq<Asked>, totalParents: nat, totalChildren: nat, maxParents: int, maxChildren: int) {
    && KeepsBudgets(Requests(run), maxParents, maxChildren)
    && totalParents == ParentsIn(Requests(run)) && totalChildren == ChildrenIn(Requests(run))
  }

  lemma BudgetedGrows(run: seq<Asked>, asked: Asked, totalParents: nat, totalChildren: nat, maxParents: int,
      maxChildren: int)
    requires Budgeted(run, totalParents, totalChildren, maxParents, maxChildren)
    requires Fits(Requests(run), |asked.parents|, maxParents, maxChildren)
    ensures Budgeted(run + [asked], totalParents + |asked.parents|, totalChildren
        + asked.children, maxParents, maxChildren)
  {
    assert Requests(run + [asked]) == Requests(run) + [Request(|asked.parents|, asked.children)];
    BudgetsGrow(Requests(run), Request(|asked.parents|, asked.children), maxParents, maxChildren);
  }

  /** One turn of the walk: browse a batch and meet its children. */
  method BrowseTurn(
    source: BrowseSource, cfg: Config, ghost space: Space, ghost goal: Walk, ghost run: seq<Asked>, w: Walk,
    batch: seq<string>, queue: seq<string>, ghost counted: bool)
    returns (failed: bool, next: Walk, children: nat, ghost asked: Asked)
    requires source.server.Lawful() && Closed(source.server.ids, space)
    requires forall p :: space.children(p) == InformedAll(source.server, ChildrenOf(p, source.server.refs(p)))
    requires OnCourse(cfg, space, source.server, goal, run, w, counted) && w.queue == batch + queue && batch != []
    modifies source
    ensures FailuresGrow(source, old(source.Counters()))
    ensures asked.parents == batch && asked.children == children
    ensures ReadsFailed(source.server, run + [asked])
    ensures counted && source.FailuresAsBefore(old(source.Counters())) ==>
        AsksInOrder(source.server, run + [asked], goal.expanded)
    ensures !failed ==>
      && OnCourse(cfg, space, source.server, goal, run + [asked], next, counted
          && source.FailuresAsBefore(old(source.Counters())))
      && Work(source.server.ids, next) < Work(source.server.ids, w)
  {
    var found;
    failed, found, asked := BrowseBatch(source, batch);
    StepOnCourse(cfg, space, source.server, goal, run, w, batch, queue, asked, found, failed,
                 counted && source.FailuresAsBefore(old(source.Counters())));
    var after, visited, out := MeetChildren(cfg, queue, w.visited, w.out, found, w.expanded + batch);
    next, children := Walk(after, visited, out, w.expanded + batch), |found|;
  }

  /** The walk from the bootstrapped queue on. `run` lists the batches asked for. */
  method BrowseQueue(
    source: BrowseSource, cfg: Config, ghost space: Space, start: Walk, maxParents: int, maxChildren: int)
    returns (raised: bool, out: seq<NodeDescriptor>, ghost run: seq<Asked>)
    requires source.server.Lawful() && ToSet(start.queue) <= source.server.ids && start.expanded == []
    requires forall p :: space.children(p) == InformedAll(source.server, ChildrenOf(p, source.server.refs(p)))
    requires Closed(source.server.ids, space)
    modifies source
    ensures KeepsBudgets(Requests(run), maxParents, maxChildren) && ReadsFailed(source.server, run)
    ensures source.FailuresAsBefore(old(source.Counters())) ==>
      AsksInOrder(source.server, run, Bfs(cfg, space, source.server.ids, start).expanded)
    ensures (maxParents >= 1 && !raised && !SomeLost(source.server, run)
             && source.FailuresAsBefore(old(source.Counters()))) ==>
      out == Bfs(cfg, space, source.server.ids, start).out
      && Parents(run) == Bfs(cfg, space, source.server.ids, start).expanded
    ensures maxParents < 1 ==> !raised && out == start.out
  {
    ghost var counters, goal := source.Counters(), Bfs(cfg, space, source.server.ids, start);
    var w := start;
    raised, run := false, [];
    var totalChildren: nat, totalParents: nat := 0, 0;
    while w.queue != []
      invariant Budgeted(run, totalParents, totalChildren, maxParents, maxChildren)
      invariant maxParents < 1 ==> w.out == start.out
      invariant FailuresGrow(source, counters)
      invariant OnCourse(cfg, space, source.server, goal, run, w, source.FailuresAsBefore(counters))
      decreases Work(source.server.ids, w)
    {
      var batch, queue := TakeBatch(w.queue, totalChildren, totalParents, maxParents, maxChildren, Requests(run));
      if batch == [] {
        break;
      }
      var failed, next, children;
      ghost var asked;
      failed, next, children, asked := BrowseTurn(source, cfg, space, goal, run, w, batch, queue,
          source.FailuresAsBefore(counters));
      BudgetedGrows(run, asked, totalParents, totalChildren, maxParents, maxChildren);
      run := run + [asked];
      if failed {
        return true, [], run;
      }
      totalParents := totalParents + |batch|;
      totalChildren := totalChildren + children;
      w := next;
    }
    out := w.out;
  }

  /** The walk ends on every server whose answers mention finitely many ids, and keeps its budgets. When no
      exception escapes, no failure counter moves and no request of this run is lost silently, the batched walk
      emits what the one-parent-at-a-time walk of the server's true address space emits, having asked about
      the same parents in the same order. Up to the first request lost silently it asks about no others
      in any case. A parent cap below 1 stops it after the roots. */
  method BrowseInstances(
    source: BrowseSource, connection: string, allow: Option<set<string>>, variableProperties: bool,
    rootInfo: string -> Option<NodeInfo>, roots: seq<string>, maxParents: int, maxChildren: int)
    returns (raised: bool, nodes: seq<NodeDescriptor>, ghost run: seq<Asked>)
    requires source.server.Lawful() && ToSet(roots) <= source.server.ids
    requires forall r <- roots :: rootInfo(r).Some? ==> rootInfo(r).value.nodeId == r
    modifies source
    ensures KeepsBudgets(Requests(run), maxParents, maxChildren) && ReadsFailed(source.server, run)
    ensures source.server.Forthcoming() ==> !SomeLost(source.server, run)
    ensures var cfg := Config(connection, allow, if variableProperties then {Object, Variable, Method} else {Object});
      var space, ids := SpaceOf(source.server, rootInfo), source.server.ids;
      && Closed(ids, space) && ToSet(Bootstrap(cfg, space, roots).queue) <= ids
      && var goal := Bfs(cfg, space, ids, Bootstrap(cfg, space, roots));
      && (source.FailuresAsBefore(old(source.Counters())) ==> AsksInOrder(source.server, run, goal.expanded))
      && (maxParents >= 1 && !raised && !SomeLost(source.server, run)
          && source.FailuresAsBefore(old(source.Counters())) ==>
            nodes == Reconcile(goal.out) && Parents(run) == goal.expanded)
      && (maxParents < 1 ==> !raised && nodes == Reconcile(Bootstrap(cfg, space, roots).out))
  {
    var cfg, space := BrowseConfig(connection, allow, variableProperties), SpaceOf(source.server, rootInfo);
    SpaceIsClosed(source.server, rootInfo);
    BootstrapWithin(cfg, space, source.server.ids, roots);
    var queue, visited, out := BootstrapRoots(cfg, space, roots);
    raised, out, run := BrowseQueue(source, cfg, space, Walk(queue, visited, out, []), maxParents, maxChildren);
    nodes := Reconcile(out);
    if source.server.Forthcoming() {
      ForthcomingLosesNothing(source.server, run);
    }
  }

  /** A server that would fail only on requests for other parents loses nothing silently in such a run. */
  lemma {:induction false} LosesNothing(server: Server, run: seq<Asked>, expanded: seq<string>)
    requires AsksInOrder(server, run, expanded)
    requires forall k :: 0 <= k < |run| && Parents(run[..k]) + run[k].parents <= expanded ==>
        !LostSilently(server, run[k])
    ensures !SomeLost(server, run)
  {
    NotLostBefore(server, run, expanded, |run|);
    assert run[..|run|] == run;
  }

  lemma {:induction false} NotLostBefore(server: Server, run: seq<Asked>, expanded: seq<string>, n: nat)
    requires AsksInOrder(server, run, expanded) && n <= |run|
    requires forall k :: 0 <= k < |run| && Parents(run[..k]) + run[k].parents <= expanded ==>
        !LostSilently(server, run[k])
    ensures !SomeLost(server, run[..n])
  {
    if n > 0 {
      var k := n - 1;
      NotLostBefore(server, run, expanded, k);
      assert InOrderAt(server, run[..k], run[k], expanded);
      assert run[..n] == run[..k] + [run[k]];
      RunGrows(server, run[..k], run[k]);
    }
  }

  ghost predicate HasComponents(nodes: seq<NodeDescriptor>, id: string) {
    exists j :: 0 <= j < |nodes| && nodes[j].parentNodeId == Some(id) && nodes[j].parentRelationship == "HasComponent"
  }

  /** So the nodes of a faultless browse are exactly the admitted ones that browseable nodes lead to from the
      roots, each once, and the compositions among them are the Objects that a node in the list is a component of. */
  lemma CleanBrowseIsExact(t: Tour, universe: set<string>)
    requires t.Consistent() && Closed(universe, t.space) && ToSet(t.roots) <= universe
    ensures var nodes := Reconcile(Result(t, universe).out);
      && DistinctIds(nodes)
      && (forall n :: n in Emitted(nodes) <==> Reachable(t, n) && t.Admits(n))
      && (forall i :: 0 <= i < |nodes| ==>
            (nodes[i].isComposition <==> nodes[i].nodeClass.Object? && HasComponents(nodes, nodes[i].nodeId)))
  {
    var out := Result(t, universe).out;
    ExactCoverage(t, universe);
    ReconcileIds(out);
    forall i | 0 <= i < |out| ensures Reconcile(out)[i].isComposition <==>
        out[i].nodeClass.Object? && HasComponents(Reconcile(out), out[i].nodeId) {
      ReconcileMarks(out, i);
    }
  }

  lemma ReconcileIds(out: seq<NodeDescriptor>)
    ensures Emitted(Reconcile(out)) == Emitted(out)
    ensures DistinctIds(out) ==> DistinctIds(Reconcile(out))
  {
    forall id ensures id in Emitted(Reconcile(out)) <==> id in Emitted(out) {
      if id in Emitted(out) {
        var i :| 0 <= i < |out| && out[i].nodeId == id;
        assert Reconcile(out)[i].nodeId == id;
      }
    }
  }

  lemma ReconcileMarks(out: seq<NodeDescriptor>, i: nat)
    requires i < |out|
    ensures Reconcile(out)[i].isComposition <==>
        out[i].nodeClass.Object? && HasComponents(Reconcile(out), out[i].nodeId)
  {
    var id := out[i].nodeId;
    if HasComponents(Reconcile(out), id) {
      var j :| 0 <= j < |out| && Reconcile(out)[j].parentNodeId == Some(id)
          && Reconcile(out)[j].parentRelationship == "HasComponent";
      assert out[j] in out;
    }
    if m :| m in out && m.parentNodeId == Some(id) && m.parentRelationship == "HasComponent" {
      var j :| 0 <= j < |out| && out[j] == m;
      assert Reconcile(out)[j].parentNodeId == Some(id);
    }
  }
}
