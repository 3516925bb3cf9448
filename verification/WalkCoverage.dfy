/** What the walk finds: exactly the admitted nodes that browseable parents lead to. */
module WalkCoverage {
  import opened Neutral
  import opened AddressWalk

  /** A walk's inputs together with what the server holds each node to be. */
  datatype Tour = Tour(
    cfg: Config, space: Space, roots: seq<string>, classOf: string -> NodeClass, namespaceOf: string -> string)
  {
    predicate Browseable(n: string) {
      classOf(n) in cfg.browseable
    }

    predicate Admits(n: string) {
      Admitted(cfg, namespaceOf(n))
    }

    predicate IsRoot(n: string) {
      n in roots && space.rootInfo(n).Some?
    }

    /** Whichever reference leads to a node, the server says the same about it. */
    ghost predicate Consistent() {
      && (forall r :: space.rootInfo(r).Some? ==> Truthful(BrowsedChild(space.rootInfo(r).value, None, ""))
                                                  && space.rootInfo(r).value.nodeId == r)
      && (forall p, i :: 0 <= i < |space.children(p)| ==>
            Truthful(space.children(p)[i]) && space.children(p)[i].parent == Some(p))
    }

    predicate Truthful(bc: BrowsedChild) {
      bc.info.nodeClass == classOf(bc.info.nodeId) && bc.info.namespaceUri == namespaceOf(bc.info.nodeId)
    }
  }

  ghost predicate Links(space: Space, p: string, n: string) {
    exists i :: 0 <= i < |space.children(p)| && space.children(p)[i].info.nodeId == n
  }

  /** A path starts at a root and leaves only browseable nodes. */
  ghost predicate IsPath(t: Tour, path: seq<string>)
    decreases |path|
  {
    && path != []
    && if |path| == 1 then t.IsRoot(path[0]) else
         var p := path[|path| - 2];
         IsPath(t, path[..|path| - 1]) && t.Browseable(p) && Links(t.space, p, path[|path| - 1])
  }

  ghost predicate Reachable(t: Tour, n: string) {
    exists path :: IsPath(t, path) && path[|path| - 1] == n
  }

  lemma ReachableStep(t: Tour, p: string, n: string)
    requires Reachable(t, p) && t.Browseable(p) && Links(t.space, p, n)
    ensures Reachable(t, n)
  {
    var path :| IsPath(t, path) && path[|path| - 1] == p;
    assert (path + [n])[..|path|] == path;
    assert IsPath(t, path + [n]);
  }

  lemma ReachableRoot(t: Tour, n: string)
    requires t.IsRoot(n)
    ensures Reachable(t, n)
  {
    assert IsPath(t, [n]);
  }

  function Emitted(out: seq<NodeDescriptor>): set<string> {
    set n <- out :: n.nodeId
  }

  ghost predicate DistinctIds(out: seq<NodeDescriptor>) {
    forall i, j :: 0 <= i < j < |out| ==> out[i].nodeId != out[j].nodeId
  }

  /** The record of an emitted node is what its root read or its parent's Browse said. */
  ghost predicate Sourced(t: Tour, n: NodeDescriptor) {
    match n.parentNodeId
    case None => t.IsRoot(n.nodeId) && n == Describe(t.cfg, BrowsedChild(t.space.rootInfo(n.nodeId).value, None, ""))
    case Some(p) =>
      && Reachable(t, p) && t.Browseable(p)
      && exists i :: 0 <= i < |t.space.children(p)| && n == Describe(t.cfg, t.space.children(p)[i])
  }

  ghost predicate ParentsFirst(out: seq<NodeDescriptor>) {
    forall i :: 0 <= i < |out| && out[i].parentNodeId.Some? ==>
      out[i].parentNodeId.value in Emitted(out[..i])
  }

  ghost predicate Inv(t: Tour, w: Walk) {
    QueueInv(t, w) && OutInv(t, w)
  }

  ghost predicate QueueInv(t: Tour, w: Walk) {
    && NoRepeats(w.expanded + w.queue)
    && (forall v :: v in w.expanded + w.queue <==> v in w.visited && t.Browseable(v))
    && (forall v :: v in w.visited ==> Reachable(t, v))
  }

  ghost predicate OutInv(t: Tour, w: Walk) {
    && DistinctIds(w.out)
    && (forall v :: v in Emitted(w.out) <==> v in w.visited && t.Admits(v))
    && (forall n :: n in w.out ==> Sourced(t, n))
    && (t.cfg.allow.None? ==> ParentsFirst(w.out))
  }

  /** A reference the walk may meet: true of its target, and from a parent already browsed. */
  ghost predicate Genuine(t: Tour, w: Walk, bc: BrowsedChild) {
    && t.Truthful(bc)
    && Sourced(t, Describe(t.cfg, bc))
    && (bc.parent.Some? ==> bc.parent.value in w.visited)
  }

  lemma SourcedIsReachable(t: Tour, bc: BrowsedChild)
    requires t.Consistent() && Sourced(t, Describe(t.cfg, bc))
    ensures Reachable(t, bc.info.nodeId)
  {
    var n := Describe(t.cfg, bc);
    if n.parentNodeId.None? {
      ReachableRoot(t, n.nodeId);
    } else {
      var p := n.parentNodeId.value;
      var i :| 0 <= i < |t.space.children(p)| && n == Describe(t.cfg, t.space.children(p)[i]);
      assert t.space.children(p)[i].info.nodeId == n.nodeId;
      ReachableStep(t, p, n.nodeId);
    }
  }

  lemma VisitKeepsQueueInv(t: Tour, w: Walk, bc: BrowsedChild)
    requires t.Consistent() && QueueInv(t, w) && Genuine(t, w, bc)
    ensures QueueInv(t, Visit(t.cfg, w, bc))
  {
    var id, v := bc.info.nodeId, Visit(t.cfg, w, bc);
    SourcedIsReachable(t, bc);
    if id !in w.visited && t.Browseable(id) {
      assert id !in w.expanded + w.queue;
      assert v.expanded + v.queue == (w.expanded + w.queue) + [id];
    }
  }

  lemma EmitKeepsParentsFirst(out: seq<NodeDescriptor>, n: NodeDescriptor)
    requires ParentsFirst(out) && (n.parentNodeId.Some? ==> n.parentNodeId.value in Emitted(out))
    ensures ParentsFirst(out + [n])
  {
    forall i | 0 <= i < |out + [n]| && (out + [n])[i].parentNodeId.Some?
      ensures (out + [n])[i].parentNodeId.value in Emitted((out + [n])[..i])
    {
      assert (out + [n])[..i] == out[..i];
      assert out[..|out|] == out;
    }
  }

  lemma EmitAddsOne(out: seq<NodeDescriptor>, n: NodeDescriptor)
    ensures Emitted(out + [n]) == Emitted(out) + {n.nodeId}
  {
    assert n in out + [n];
    assert forall m :: m in out ==> m in out + [n];
  }

  lemma VisitKeepsOutInv(t: Tour, w: Walk, bc: BrowsedChild)
    requires OutInv(t, w) && Genuine(t, w, bc)
    ensures OutInv(t, Visit(t.cfg, w, bc))
  {
    var id, n := bc.info.nodeId, Describe(t.cfg, bc);
    if id !in w.visited && t.Admits(id) {
      assert forall i :: 0 <= i < |w.out| ==> w.out[i].nodeId in Emitted(w.out);
      EmitAddsOne(w.out, n);
      if t.cfg.allow.None? {
        EmitKeepsParentsFirst(w.out, n);
      }
    }
  }

  function Targets(bcs: seq<BrowsedChild>): set<string> {
    set bc <- bcs :: bc.info.nodeId
  }

  lemma VisitKeepsInv(t: Tour, w: Walk, bc: BrowsedChild)
    requires t.Consistent() && Inv(t, w) && Genuine(t, w, bc)
    ensures Inv(t, Visit(t.cfg, w, bc)) && Visit(t.cfg, w, bc).visited == w.visited + {bc.info.nodeId}
  {
    VisitKeepsQueueInv(t, w, bc);
    VisitKeepsOutInv(t, w, bc);
  }

  lemma {:induction false} VisitAllKeepsInv(t: Tour, w: Walk, bcs: seq<BrowsedChild>)
    requires t.Consistent() && Inv(t, w) && forall bc :: bc in bcs ==> Genuine(t, w, bc)
    ensures Inv(t, VisitAll(t.cfg, w, bcs))
    ensures VisitAll(t.cfg, w, bcs).visited == w.visited + Targets(bcs)
    decreases |bcs|
  {
    if bcs != [] {
      var v := Visit(t.cfg, w, bcs[0]);
      VisitKeepsInv(t, w, bcs[0]);
      forall bc | bc in bcs[1..] ensures Genuine(t, v, bc) {
        assert bc in bcs;
      }
      VisitAllKeepsInv(t, v, bcs[1..]);
      assert bcs == [bcs[0]] + bcs[1..];
      assert Targets(bcs) == {bcs[0].info.nodeId} + Targets(bcs[1..]);
    }
  }

  /** Everything a browsed parent refers to has been met. */
  ghost predicate Explored(t: Tour, w: Walk) {
    forall p, n :: p in w.expanded && Links(t.space, p, n) ==> n in w.visited
  }

  lemma ExpandKeepsInv(t: Tour, w: Walk)
    requires t.Consistent() && Inv(t, w) && Explored(t, w) && w.queue != []
    ensures Inv(t, Expand(t.cfg, t.space, w)) && Explored(t, Expand(t.cfg, t.space, w))
    ensures w.visited <= Expand(t.cfg, t.space, w).visited
  {
    var p := w.queue[0];
    var popped := w.(queue := w.queue[1..], expanded := w.expanded + [p]);
    assert popped.expanded + popped.queue == w.expanded + w.queue;
    assert p in w.expanded + w.queue;
    var bcs := t.space.children(p);
    forall bc | bc in bcs ensures Genuine(t, popped, bc) {
      var i :| 0 <= i < |bcs| && bcs[i] == bc;
      assert t.space.children(p)[i].parent == Some(p);
    }
    assert Inv(t, popped);
    VisitAllKeepsInv(t, popped, bcs);
    VisitAllKeepsExpanded(t.cfg, popped, bcs);
    forall n | Links(t.space, p, n) ensures n in Expand(t.cfg, t.space, w).visited {
      var i :| 0 <= i < |bcs| && bcs[i].info.nodeId == n;
      assert bcs[i] in bcs;
    }
  }

  lemma {:induction false} BfsKeepsInv(t: Tour, universe: set<string>, w: Walk)
    requires t.Consistent() && Inv(t, w) && Explored(t, w)
    requires Closed(universe, t.space) && ToSet(w.queue) <= universe
    ensures var r := Bfs(t.cfg, t.space, universe, w);
      Inv(t, r) && Explored(t, r) && r.queue == [] && w.visited <= r.visited
    decreases Work(universe, w)
  {
    if w.queue != [] {
      ExpandWorks(t.cfg, t.space, universe, w);
      ExpandKeepsInv(t, w);
      BfsKeepsInv(t, universe, Expand(t.cfg, t.space, w));
    }
  }

  lemma {:induction false} RootSightingsExact(t: Tour, roots: seq<string>)
    requires t.Consistent()
    ensures Targets(RootSightings(t.space, roots)) == set r <- roots | t.space.rootInfo(r).Some?
    ensures forall bc :: bc in RootSightings(t.space, roots) ==>
      bc.info.nodeId in roots && t.space.rootInfo(bc.info.nodeId) == Some(bc.info) && bc.parent.None?
          && bc.relationship == ""
  {
    if roots != [] {
      RootSightingsExact(t, roots[1..]);
      var rest, all := RootSightings(t.space, roots[1..]), RootSightings(t.space, roots);
      assert roots == [roots[0]] + roots[1..];
      assert forall bc :: bc in all ==> bc in rest || bc == BrowsedChild(t.space.rootInfo(roots[0]).value, None, "");
      assert t.space.rootInfo(roots[0]).Some? ==> BrowsedChild(t.space.rootInfo(roots[0]).value, None, "") in all;
      assert forall bc :: bc in rest ==> bc in all;
      var ids := Targets(all);
      forall r | r in roots && t.space.rootInfo(r).Some? ensures r in ids {
        if r in roots[1..] {
          assert r in (set q <- roots[1..] | t.space.rootInfo(q).Some?);
          assert r in Targets(rest);
          var bc :| bc in rest && bc.info.nodeId == r;
          assert bc in all;
        }
      }
    }
  }

  lemma BootstrapInv(t: Tour)
    requires t.Consistent()
    ensures var w := Bootstrap(t.cfg, t.space, t.roots);
      Inv(t, w) && w.expanded == [] && w.visited == set r <- t.roots | t.space.rootInfo(r).Some?
  {
    var bcs := RootSightings(t.space, t.roots);
    RootSightingsExact(t, t.roots);
    forall bc | bc in bcs ensures Genuine(t, START, bc) {
      assert bc == BrowsedChild(t.space.rootInfo(bc.info.nodeId).value, None, "");
    }
    assert Inv(t, START);
    VisitAllKeepsInv(t, START, bcs);
    VisitAllKeepsExpanded(t.cfg, START, bcs);
  }

  lemma {:induction false} ReachableIsVisited(t: Tour, w: Walk, path: seq<string>)
    requires Inv(t, w) && Explored(t, w) && w.queue == []
    requires forall r :: t.IsRoot(r) ==> r in w.visited
    requires IsPath(t, path)
    ensures path[|path| - 1] in w.visited
    decreases |path|
  {
    if |path| > 1 {
      var front := path[..|path| - 1];
      ReachableIsVisited(t, w, front);
      assert front[|front| - 1] == path[|path| - 2];
      assert path[|path| - 2] in w.expanded + w.queue;
    }
  }

  /** The walk's final state, for a caller who knows nothing of its steps. */
  ghost function Result(t: Tour, universe: set<string>): Walk
    requires t.Consistent() && Closed(universe, t.space) && ToSet(t.roots) <= universe
  {
    BootstrapWithin(t.cfg, t.space, universe, t.roots);
    Bfs(t.cfg, t.space, universe, Bootstrap(t.cfg, t.space, t.roots))
  }

  /** Exactly the admitted reachable nodes are emitted, each once; exactly the
      browseable reachable nodes are browsed, each once. */
  lemma ExactCoverage(t: Tour, universe: set<string>)
    requires t.Consistent() && Closed(universe, t.space) && ToSet(t.roots) <= universe
    ensures var w := Result(t, universe);
      && DistinctIds(w.out)
      && (forall n :: n in Emitted(w.out) <==> Reachable(t, n) && t.Admits(n))
      && NoRepeats(w.expanded)
      && (forall n :: n in w.expanded <==> Reachable(t, n) && t.Browseable(n))
      && (forall n :: n in w.out ==> Sourced(t, n))
  {
    var start := Bootstrap(t.cfg, t.space, t.roots);
    BootstrapInv(t);
    BootstrapWithin(t.cfg, t.space, universe, t.roots);
    BfsKeepsInv(t, universe, start);
    var w := Result(t, universe);
    assert w.expanded + w.queue == w.expanded;
    forall n | Reachable(t, n) ensures n in w.visited {
      var path :| IsPath(t, path) && path[|path| - 1] == n;
      ReachableIsVisited(t, w, path);
    }
  }

  // ------------------------------------------------------------------ parent chains

  /** The emitted chain from `n` up to a node without parent, `n` first. */
  ghost predicate IsChain(out: seq<NodeDescriptor>, chain: seq<int>) {
    && chain != []
    && (forall k :: 0 <= k < |chain| ==> 0 <= chain[k] < |out|)
    && out[chain[|chain| - 1]].parentNodeId.None?
    && forall k {:trigger chain[k]} :: 0 <= k < |chain| - 1 ==>
         chain[k + 1] < chain[k] && out[chain[k]].parentNodeId == Some(out[chain[k + 1]].nodeId)
  }

  lemma {:induction false} ChainEndsAtRoot(out: seq<NodeDescriptor>, i: nat) returns (chain: seq<int>)
    requires ParentsFirst(out) && i < |out|
    ensures IsChain(out, chain) && chain[0] == i
    decreases i
  {
    if out[i].parentNodeId.None? {
      chain := [i];
    } else {
      var p := out[i].parentNodeId.value;
      assert p in Emitted(out[..i]);
      var m :| m in out[..i] && m.nodeId == p;
      var j :| 0 <= j < i && out[..i][j] == m;
      var rest := ChainEndsAtRoot(out, j);
      chain := [i] + rest;
      assert forall k :: 0 < k < |chain| ==> chain[k] == rest[k - 1];
    }
  }

  /** Without an allowlist every parent is emitted before its children, and the
      parents of any emitted node lead to a root of the walk. */
  lemma ParentsPrecedeChildren(t: Tour, universe: set<string>, i: nat) returns (chain: seq<int>)
    requires t.Consistent() && Closed(universe, t.space) && ToSet(t.roots) <= universe && t.cfg.allow.None?
    requires i < |Result(t, universe).out|
    ensures var out := Result(t, universe).out;
      && ParentsFirst(out)
      && IsChain(out, chain) && chain[0] == i
      && t.IsRoot(out[chain[|chain| - 1]].nodeId)
  {
    BootstrapInv(t);
    BootstrapWithin(t.cfg, t.space, universe, t.roots);
    BfsKeepsInv(t, universe, Bootstrap(t.cfg, t.space, t.roots));
    var out := Result(t, universe).out;
    chain := ChainEndsAtRoot(out, i);
    assert out[chain[|chain| - 1]] in out;
  }
}
