/** The breadth-first walk of the instance tree (adapters/asyncua/browse.py). */
module AddressWalk {
  import opened Neutral

  datatype NodeInfo = NodeInfo(
    nodeId: string,
    displayName: string,
    nodeClass: NodeClass,
    namespaceUri: string,
    typeDefinition: Option<string>,
    dataType: Option<string>,
    accessLevel: Option<int>,
    valueRank: Option<int>)

  /** What one reference of a Browse says about its target. A root is a
      BrowsedChild without parent and relationship. */
  datatype BrowsedChild = BrowsedChild(info: NodeInfo, parent: Option<string>, relationship: string)

  /** `allow` is the namespace allowlist; `browseable` the classes worth expanding. */
  datatype Config = Config(connection: string, allow: Option<set<string>>, browseable: set<NodeClass>)

  /** The walk's variables. `expanded` lists the parents browsed so far. */
  datatype Walk = Walk(
    queue: seq<string>, visited: set<string>, out: seq<NodeDescriptor>, expanded: seq<string>)

  /** The address space, as the browse source reports it. */
  datatype Space = Space(rootInfo: string -> Option<NodeInfo>, children: string -> seq<BrowsedChild>)

  function BrowseConfig(connection: string, allow: Option<set<string>>, variableProperties: bool): Config {
    Config(connection, allow, if variableProperties then {Object, Variable, Method} else {Object})
  }

  predicate Admitted(cfg: Config, namespaceUri: string) {
    cfg.allow.None? || namespaceUri in cfg.allow.value
  }

  /** Python's `a or b`: an empty string counts as absent. */
  function Or(a: Option<string>, b: Option<string>): Option<string> {
    if a.Some? && a.value != "" then a else b
  }

  function Describe(cfg: Config, bc: BrowsedChild): NodeDescriptor {
    NodeDescriptor(
      bc.info.nodeId, cfg.connection, bc.info.displayName, bc.info.nodeClass, bc.info.namespaceUri,
      Or(bc.info.typeDefinition, bc.info.dataType), bc.parent, false, bc.relationship,
      bc.info.dataType, None, bc.info.accessLevel, bc.info.valueRank, "", "")
  }

  // ------------------------------------------------------------------ the walk, one parent at a time

  /** The effect of meeting one reference. */
  function Visit(cfg: Config, w: Walk, bc: BrowsedChild): Walk {
    var id := bc.info.nodeId;
    if id in w.visited then w else
      Walk(if bc.info.nodeClass in cfg.browseable then w.queue + [id] else w.queue,
           w.visited + {id},
           if Admitted(cfg, bc.info.namespaceUri) then w.out + [Describe(cfg, bc)] else w.out,
           w.expanded)
  }

  function VisitAll(cfg: Config, w: Walk, bcs: seq<BrowsedChild>): Walk
    decreases |bcs|
  {
    if bcs == [] then w else VisitAll(cfg, Visit(cfg, w, bcs[0]), bcs[1..])
  }

  function RootSightings(space: Space, roots: seq<string>): seq<BrowsedChild> {
    if roots == [] then [] else
      (if space.rootInfo(roots[0]).Some? then [BrowsedChild(space.rootInfo(roots[0]).value, None, "")] else [])
      + RootSightings(space, roots[1..])
  }

  const START := Walk([], {}, [], [])

  function Bootstrap(cfg: Config, space: Space, roots: seq<string>): Walk {
    VisitAll(cfg, START, RootSightings(space, roots))
  }

  /** Browse the parent at the head of the queue. */
  function Expand(cfg: Config, space: Space, w: Walk): Walk
    requires w.queue != []
  {
    VisitAll(cfg, w.(queue := w.queue[1..], expanded := w.expanded + [w.queue[0]]), space.children(w.queue[0]))
  }

  /** A finite set of ids that the references never leave. */
  ghost predicate Closed(universe: set<string>, space: Space) {
    forall p, i :: p in universe && 0 <= i < |space.children(p)| ==> space.children(p)[i].info.nodeId in universe
  }

  ghost predicate Within(universe: set<string>, bcs: seq<BrowsedChild>) {
    forall i :: 0 <= i < |bcs| ==> bcs[i].info.nodeId in universe
  }

  /** What is left to do: nodes not met yet plus parents queued. */
  ghost function Work(universe: set<string>, w: Walk): nat {
    |universe - w.visited| + |w.queue|
  }

  /** The reference walk: breadth first, one parent per Browse. */
  ghost function Bfs(cfg: Config, space: Space, universe: set<string>, w: Walk): Walk
    requires Closed(universe, space) && ToSet(w.queue) <= universe
    decreases Work(universe, w)
  {
    if w.queue == [] then w else
      ExpandWorks(cfg, space, universe, w);
      Bfs(cfg, space, universe, Expand(cfg, space, w))
  }

  lemma {:induction false} VisitAllWorks(cfg: Config, universe: set<string>, w: Walk, bcs: seq<BrowsedChild>)
    requires Within(universe, bcs) && ToSet(w.queue) <= universe
    ensures ToSet(VisitAll(cfg, w, bcs).queue) <= universe
    ensures Work(universe, VisitAll(cfg, w, bcs)) <= Work(universe, w)
    decreases |bcs|
  {
    if bcs != [] {
      var id := bcs[0].info.nodeId;
      var v := Visit(cfg, w, bcs[0]);
      if id !in w.visited {
        assert universe - w.visited == (universe - v.visited) + {id};
        assert |universe - w.visited| == |universe - v.visited| + 1;
      }
      assert id in universe;
      assert Within(universe, bcs[1..]);
      VisitAllWorks(cfg, universe, v, bcs[1..]);
    }
  }

  lemma ExpandWorks(cfg: Config, space: Space, universe: set<string>, w: Walk)
    requires Closed(universe, space) && ToSet(w.queue) <= universe && w.queue != []
    ensures ToSet(Expand(cfg, space, w).queue) <= universe
    ensures Work(universe, Expand(cfg, space, w)) < Work(universe, w)
  {
    assert w.queue[0] in ToSet(w.queue);
    VisitAllWorks(cfg, universe, w.(queue := w.queue[1..], expanded := w.expanded + [w.queue[0]]),
                  space.children(w.queue[0]));
  }

  // ------------------------------------------------------------------ batches refine single steps

  /** What is queued is expanded next, in order. */
  lemma {:induction false} BfsExpandsQueue(cfg: Config, space: Space, universe: set<string>, w: Walk)
    requires Closed(universe, space) && ToSet(w.queue) <= universe
    ensures w.expanded + w.queue <= Bfs(cfg, space, universe, w).expanded
    decreases Work(universe, w)
  {
    if w.queue != [] {
      ExpandWorks(cfg, space, universe, w);
      var next := Expand(cfg, space, w);
      BfsExpandsQueue(cfg, space, universe, next);
      VisitFromEmptyQueue(cfg, w, w.queue[1..], w.expanded + [w.queue[0]], space.children(w.queue[0]));
      VisitAllKeepsExpanded(cfg, w.(queue := w.queue[1..], expanded := w.expanded + [w.queue[0]]),
          space.children(w.queue[0]));
      assert w.expanded + w.queue == w.expanded + [w.queue[0]] + w.queue[1..];
    }
  }

  function Flatten(space: Space, parents: seq<string>): seq<BrowsedChild> {
    if parents == [] then [] else space.children(parents[0]) + Flatten(space, parents[1..])
  }

  /** Browse the first `k` queued parents in one request. */
  function Batch(cfg: Config, space: Space, w: Walk, k: nat): Walk
    requires k <= |w.queue|
  {
    VisitAll(cfg, w.(queue := w.queue[k..], expanded := w.expanded + w.queue[..k]), Flatten(space, w.queue[..k]))
  }

  /** Parents already queued neither influence nor are influenced by the references met meanwhile. */
  lemma {:induction false} VisitAllFrame(
    cfg: Config, w: Walk, before: seq<string>, expanded: seq<string>, bcs: seq<BrowsedChild>)
    ensures VisitAll(cfg, w.(queue := before + w.queue, expanded := expanded), bcs)
         == var r := VisitAll(cfg, w, bcs); r.(queue := before + r.queue, expanded := expanded)
    decreases |bcs|
  {
    if bcs != [] {
      var v := Visit(cfg, w, bcs[0]);
      assert before + (w.queue + [bcs[0].info.nodeId]) == (before + w.queue) + [bcs[0].info.nodeId];
      assert Visit(cfg, w.(queue := before + w.queue, expanded := expanded), bcs[0])
          == v.(queue := before + v.queue, expanded := expanded);
      VisitAllFrame(cfg, v, before, expanded, bcs[1..]);
    }
  }

  lemma {:induction false} VisitAllAppend(cfg: Config, w: Walk, a: seq<BrowsedChild>, b: seq<BrowsedChild>)
    ensures VisitAll(cfg, w, a + b) == VisitAll(cfg, VisitAll(cfg, w, a), b)
    decreases |a|
  {
    if a == [] {
      assert a + b == b;
    } else {
      assert (a + b)[0] == a[0] && (a + b)[1..] == a[1..] + b;
      VisitAllAppend(cfg, Visit(cfg, w, a[0]), a[1..], b);
    }
  }

  lemma VisitFromEmptyQueue(cfg: Config, w: Walk, queue: seq<string>, expanded: seq<string>, bcs: seq<BrowsedChild>)
    ensures VisitAll(cfg, w.(queue := queue, expanded := expanded), bcs)
         == var r := VisitAll(cfg, w.(queue := []), bcs); r.(queue := queue + r.queue, expanded := expanded)
  {
    VisitAllFrame(cfg, w.(queue := []), queue, expanded, bcs);
    assert queue + [] == queue;
  }

  /** One batch of `k` parents is one single step followed by a batch of `k - 1`. */
  lemma BatchPeels(cfg: Config, space: Space, w: Walk, k: nat)
    requires 0 < k <= |w.queue|
    ensures k - 1 <= |Expand(cfg, space, w).queue|
    ensures Batch(cfg, space, w, k) == Batch(cfg, space, Expand(cfg, space, w), k - 1)
  {
    var q, met := w.queue, space.children(w.queue[0]);
    var rest, all := q[1..k], w.expanded + q[..k];
    var e := Expand(cfg, space, w);
    VisitFromEmptyQueue(cfg, w, q[1..], w.expanded + [q[0]], met);
    VisitFromEmptyQueue(cfg, w, q[k..], all, met);
    assert e.queue[..k - 1] == rest;
    assert e.expanded + rest == all;
    assert e.(queue := e.queue[k - 1..], expanded := all) == VisitAll(cfg, w.(queue := q[k..], expanded := all), met);
    assert q[..k][0] == q[0] && q[..k][1..] == rest;
    VisitAllAppend(cfg, w.(queue := q[k..], expanded := all), met, Flatten(space, rest));
  }

  lemma {:induction false} BatchRefinesBfs(cfg: Config, space: Space, universe: set<string>, w: Walk, k: nat)
    requires Closed(universe, space) && ToSet(w.queue) <= universe && k <= |w.queue|
    ensures ToSet(Batch(cfg, space, w, k).queue) <= universe
    ensures Work(universe, Batch(cfg, space, w, k)) + k <= Work(universe, w)
    ensures Bfs(cfg, space, universe, Batch(cfg, space, w, k)) == Bfs(cfg, space, universe, w)
    decreases k
  {
    if k == 0 {
      assert w.queue[..0] == [] && w.queue[0..] == w.queue && w.expanded + [] == w.expanded;
      assert Batch(cfg, space, w, 0) == w;
    } else {
      BatchPeels(cfg, space, w, k);
      ExpandWorks(cfg, space, universe, w);
      BatchRefinesBfs(cfg, space, universe, Expand(cfg, space, w), k - 1);
    }
  }

  // ------------------------------------------------------------------ batch sizing

  function Max(a: real, b: real): real {
    if a < b then b else a
  }

  function Min(a: int, b: int): int {
    if a < b then a else b
  }

  /** The payload planned for one parent: twice the mean seen so far, which counts as at least 1. */
  function PlannedPerParent(mean: real): real {
    Max(1.0, mean) * 2.0
  }

  /** The next batch is the largest one that the queue, the parent cap and the
      payload budget allow, but never empty while there is something to do. */
  function AdaptiveBatchSize(queueLen: int, mean: real, maxChildren: int, maxParents: int): (size: int)
    ensures size <= queueLen && size <= maxParents
    ensures queueLen >= 1 && maxParents >= 1 ==> size >= 1
    ensures var planned := if mean < 1.0 then 2.0 else 2.0 * mean;
      && (size <= 1 || size as real * planned <= maxChildren as real)
      && (size == queueLen || size == maxParents || (size + 1) as real * planned > maxChildren as real)
  {
    var perParent := PlannedPerParent(mean);
    var byPayload := (maxChildren as real / perParent).Floor;
    var capped := if byPayload < 1 then 1 else byPayload;
    var size := Min(Min(queueLen, maxParents), capped);
    FloorFits(maxChildren as real, perParent, size);
    FloorFits(maxChildren as real, perParent, size + 1);
    size
  }

  /** Whole shares of size `d` that fit into `a`: exactly those up to the quotient's floor. */
  lemma FloorFits(a: real, d: real, n: int)
    requires d > 0.0
    ensures n <= (a / d).Floor <==> n as real * d <= a
  {
    var share := a / d;
    assert share * d == a;
    if n <= share.Floor {
      ScaleOrder(n as real, share, d);
    } else {
      ScaleOrder(share, n as real, d);
    }
  }

  lemma ScaleOrder(a: real, b: real, c: real)
    requires c > 0.0
    ensures a <= b ==> a * c <= b * c
    ensures a < b ==> a * c < b * c
  {
  }

  /** One batched Browse: how many parents it asked about and how many children came back. */
  datatype Request = Request(parents: nat, children: nat)

  function ParentsIn(trace: seq<Request>): nat
    decreases |trace|
  {
    if trace == [] then 0 else ParentsIn(trace[..|trace| - 1]) + trace[|trace| - 1].parents
  }

  function ChildrenIn(trace: seq<Request>): nat
    decreases |trace|
  {
    if trace == [] then 0 else ChildrenIn(trace[..|trace| - 1]) + trace[|trace| - 1].children
  }

  /** Mean children per parent over the requests so far. */
  function Mean(trace: seq<Request>): real {
    ChildrenIn(trace) as real / Max(1.0, ParentsIn(trace) as real)
  }

  /** A batch of `size` parents keeps both budgets after the requests in `before`. */
  predicate Fits(before: seq<Request>, size: int, maxParents: int, maxChildren: int) {
    && 1 <= size <= maxParents
    && (size == 1 || size as real * (if Mean(before) < 1.0 then 2.0 else 2.0 * Mean(before)) <= maxChildren as real)
  }

  lemma TargetFits(before: seq<Request>, queueLen: int, maxParents: int, maxChildren: int)
    ensures var size := AdaptiveBatchSize(queueLen, Mean(before), maxChildren, maxParents);
      size >= 1 ==> Fits(before, size, maxParents, maxChildren)
  {
  }

  /** Every request of the run kept both budgets, given what came back before it. */
  ghost predicate KeepsBudgets(trace: seq<Request>, maxParents: int, maxChildren: int)
    decreases |trace|
  {
    trace == [] ||
    var before := trace[..|trace| - 1];
    Fits(before, trace[|trace| - 1].parents, maxParents, maxChildren) && KeepsBudgets(before, maxParents, maxChildren)
  }

  lemma {:induction false} VisitAllKeepsExpanded(cfg: Config, w: Walk, bcs: seq<BrowsedChild>)
    ensures VisitAll(cfg, w, bcs).expanded == w.expanded
    decreases |bcs|
  {
    if bcs != [] {
      VisitAllKeepsExpanded(cfg, Visit(cfg, w, bcs[0]), bcs[1..]);
    }
  }

  // ------------------------------------------------------------------ the walk as the source runs it

  /** is_composition, settled after the walk: an Object some emitted node hangs off by HasComponent. */
  function Reconcile(out: seq<NodeDescriptor>): seq<NodeDescriptor> {
    var parents := set m <- out | m.parentNodeId.Some? && m.parentRelationship == "HasComponent"
        :: m.parentNodeId.value;
    seq(|out|, i requires 0 <= i < |out| =>
      out[i].(isComposition := out[i].nodeClass.Object? && out[i].nodeId in parents))
  }

  method BootstrapRoots(cfg: Config, space: Space, roots: seq<string>)
    returns (queue: seq<string>, visited: set<string>, out: seq<NodeDescriptor>)
    requires forall r <- roots :: space.rootInfo(r).Some? ==> space.rootInfo(r).value.nodeId == r
    ensures Walk(queue, visited, out, []) == Bootstrap(cfg, space, roots)
  {
    queue, visited, out := [], {}, [];
    for k := 0 to |roots|
      invariant VisitAll(cfg, Walk(queue, visited, out, []), RootSightings(space, roots[k..]))
          == Bootstrap(cfg, space, roots)
    {
      var rid := roots[k];
      assert roots[k..][0] == rid && roots[k..][1..] == roots[k + 1..];
      var info := space.rootInfo(rid);
      if info.None? {
        assert RootSightings(space, roots[k..]) == RootSightings(space, roots[k + 1..]);
        continue;
      }
      ghost var seen := RootSightings(space, roots[k..]);
      assert seen[0] == BrowsedChild(info.value, None, "") && seen[1..] == RootSightings(space, roots[k + 1..]);
      if rid in visited {
        continue;
      }
      visited := visited + {rid};
      if !Admitted(cfg, info.value.namespaceUri) {
        if info.value.nodeClass in cfg.browseable {
          queue := queue + [rid];
        }
        continue;
      }
      var at := info.value;
      out := out + [NodeDescriptor(
        at.nodeId, cfg.connection, at.displayName, at.nodeClass, at.namespaceUri, Or(at.typeDefinition, at.dataType),
        None, false, "", at.dataType, None, at.accessLevel, at.valueRank, "", "")];
      if info.value.nodeClass in cfg.browseable {
        queue := queue + [rid];
      }
    }
  }

  /** Meet one batch's references in the order the browse source returned them. */
  method MeetChildren(
    cfg: Config, queue0: seq<string>, visited0: set<string>, out0: seq<NodeDescriptor>,
    children: seq<BrowsedChild>, ghost expanded: seq<string>)
    returns (queue: seq<string>, visited: set<string>, out: seq<NodeDescriptor>)
    ensures Walk(queue, visited, out, expanded) == VisitAll(cfg, Walk(queue0, visited0, out0, expanded), children)
  {
    queue, visited, out := queue0, visited0, out0;
    for i := 0 to |children|
      invariant VisitAll(cfg, Walk(queue, visited, out, expanded), children[i..])
             == VisitAll(cfg, Walk(queue0, visited0, out0, expanded), children)
    {
      var bc := children[i];
      assert children[i..][0] == bc && children[i..][1..] == children[i + 1..];
      var id := bc.info.nodeId;
      if id in visited {
        continue;
      }
      visited := visited + {id};
      if !Admitted(cfg, bc.info.namespaceUri) {
        if bc.info.nodeClass in cfg.browseable {
          queue := queue + [id];
        }
        continue;
      }
      var at := bc.info;
      out := out + [NodeDescriptor(
        id, cfg.connection, at.displayName, at.nodeClass, at.namespaceUri, Or(at.typeDefinition, at.dataType),
        bc.parent, false, bc.relationship, at.dataType, None, at.accessLevel, at.valueRank, "", "")];
      if bc.info.nodeClass in cfg.browseable {
        queue := queue + [id];
      }
    }
  }

  /** Pop the next batch off the queue. */
  method TakeBatch(
    queue0: seq<string>, totalChildren: nat, totalParents: nat, maxParents: int, maxChildren: int,
    ghost trace: seq<Request>)
    returns (batch: seq<string>, queue: seq<string>)
    requires totalParents == ParentsIn(trace) && totalChildren == ChildrenIn(trace)
    ensures batch + queue == queue0
    ensures batch == [] <==> queue0 == [] || maxParents < 1
    ensures batch != [] ==> Fits(trace, |batch|, maxParents, maxChildren)
  {
    var mean := totalChildren as real / Max(1.0, totalParents as real);
    var target := AdaptiveBatchSize(|queue0|, mean, maxChildren, maxParents);
    TargetFits(trace, |queue0|, maxParents, maxChildren);
    batch, queue := [], queue0;
    while queue != [] && |batch| < target
      invariant batch + queue == queue0
      invariant |batch| <= target || batch == []
      decreases |queue|
    {
      batch, queue := batch + [queue[0]], queue[1..];
    }
    assert batch != [] ==> |batch| == target;
  }

  lemma {:induction false} RootsWithin(space: Space, universe: set<string>, roots: seq<string>)
    requires forall r <- roots :: space.rootInfo(r).Some? ==> space.rootInfo(r).value.nodeId == r
    requires ToSet(roots) <= universe
    ensures Within(universe, RootSightings(space, roots))
  {
    if roots != [] {
      assert roots[0] in ToSet(roots);
      forall r | r in ToSet(roots[1..]) ensures r in universe {
        assert r in ToSet(roots);
      }
      RootsWithin(space, universe, roots[1..]);
    }
  }

  lemma BootstrapWithin(cfg: Config, space: Space, universe: set<string>, roots: seq<string>)
    requires forall r <- roots :: space.rootInfo(r).Some? ==> space.rootInfo(r).value.nodeId == r
    requires ToSet(roots) <= universe
    ensures ToSet(Bootstrap(cfg, space, roots).queue) <= universe
  {
    RootsWithin(space, universe, roots);
    VisitAllWorks(cfg, universe, START, RootSightings(space, roots));
  }
}
