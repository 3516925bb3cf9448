/** What the emitted records say, in terms of the server's references (adapters/asyncua/browse.py, upstream.py). */
module WalkRecords {
  import opened Neutral
  import opened AddressWalk
  import opened BrowsePaging
  import opened Browse

  /** Those of these classes and namespaces, in order; None is no restriction. */
  function Only(classes: Option<set<NodeClass>>, uris: Option<set<string>>, bcs: seq<BrowsedChild>)
    : (kept: seq<BrowsedChild>)
    ensures forall bc :: bc in kept <==>
              && bc in bcs && (classes.Some? ==> bc.info.nodeClass in classes.value)
              && (uris.Some? ==> bc.info.namespaceUri in uris.value)
    decreases |bcs|
  {
    if bcs == [] then [] else
      var bc := bcs[|bcs| - 1];
      assert bcs == bcs[..|bcs| - 1] + [bc];
      Only(classes, uris, bcs[..|bcs| - 1])
        + if (classes.None? || bc.info.nodeClass in classes.value) && (uris.None? || bc.info.namespaceUri in uris.value)
          then [bc] else []
  }

  function NodeIds(bcs: seq<BrowsedChild>): (ids: seq<string>)
    ensures |ids| == |bcs| && forall i :: 0 <= i < |bcs| ==> ids[i] == bcs[i].info.nodeId
  {
    seq(|bcs|, i requires 0 <= i < |bcs| => bcs[i].info.nodeId)
  }

  /** The first reference to each node, in order. */
  function Firsts(bcs: seq<BrowsedChild>): (firsts: seq<BrowsedChild>)
    ensures forall bc :: bc in firsts ==> bc in bcs
    decreases |bcs|
  {
    if bcs == [] then [] else
      var n := |bcs| - 1;
      assert bcs == bcs[..n] + [bcs[n]];
      if bcs[n].info.nodeId in NodeIds(bcs[..n]) then Firsts(bcs[..n]) else Firsts(bcs[..n]) + [bcs[n]]
  }

  ghost predicate IsFirstAt(bcs: seq<BrowsedChild>, i: nat) {
    i < |bcs| && forall j :: 0 <= j < i ==> bcs[j].info.nodeId != bcs[i].info.nodeId
  }

  /** They are the references that none to the same node precedes. */
  lemma FirstsExact(bcs: seq<BrowsedChild>, bc: BrowsedChild)
    ensures bc in Firsts(bcs) <==> exists i: nat :: IsFirstAt(bcs, i) && bcs[i] == bc
  {
    if bc in Firsts(bcs) {
      var i := FirstFrom(bcs, bc);
    }
    if i: nat :| IsFirstAt(bcs, i) && bcs[i] == bc {
      FirstIsKept(bcs, i);
    }
  }

  lemma {:induction false} FirstFrom(bcs: seq<BrowsedChild>, bc: BrowsedChild) returns (i: nat)
    requires bc in Firsts(bcs)
    ensures IsFirstAt(bcs, i) && bcs[i] == bc
    decreases |bcs|
  {
    i := |bcs| - 1;
    if bc in Firsts(bcs[..i]) {
      i := FirstFrom(bcs[..i], bc);
    } else {
      assert bcs[i].info.nodeId !in NodeIds(bcs[..i]);
      forall j | 0 <= j < i ensures bcs[j].info.nodeId != bcs[i].info.nodeId {
        assert NodeIds(bcs[..i])[j] == bcs[j].info.nodeId;
      }
    }
  }

  lemma {:induction false} FirstIsKept(bcs: seq<BrowsedChild>, i: nat)
    requires IsFirstAt(bcs, i)
    ensures bcs[i] in Firsts(bcs)
    decreases |bcs|
  {
    var n := |bcs| - 1;
    if i < n {
      FirstIsKept(bcs[..n], i);
    }
  }

  /** Every reference met by a walk that expanded these parents, the roots first. */
  function Met(space: Space, roots: seq<string>, expanded: seq<string>): seq<BrowsedChild> {
    RootSightings(space, roots) + Flatten(space, expanded)
  }

  // ------------------------------------------------------------------ the walk takes first references

  function DescribeAll(cfg: Config, bcs: seq<BrowsedChild>): (out: seq<NodeDescriptor>)
    ensures |out| == |bcs| && forall k :: 0 <= k < |bcs| ==> out[k] == Describe(cfg, bcs[k])
  {
    seq(|bcs|, k requires 0 <= k < |bcs| => Describe(cfg, bcs[k]))
  }

  /** The walk that has met these references and expanded nothing. */
  function Taken(cfg: Config, bcs: seq<BrowsedChild>): Walk {
    Walk(NodeIds(Only(Some(cfg.browseable), None, Firsts(bcs))), ToSet(NodeIds(bcs)),
         DescribeAll(cfg, Only(None, cfg.allow, Firsts(bcs))), [])
  }

  lemma OnlySnoc(classes: Option<set<NodeClass>>, uris: Option<set<string>>, bcs: seq<BrowsedChild>, bc: BrowsedChild)
    ensures Only(classes, uris, bcs + [bc]) == Only(classes, uris, bcs)
         + (if (classes.None? || bc.info.nodeClass in classes.value)
               && (uris.None? || bc.info.namespaceUri in uris.value) then [bc] else [])
  {
    assert (bcs + [bc])[..|bcs|] == bcs;
  }

  lemma NodeIdsSnoc(bcs: seq<BrowsedChild>, bc: BrowsedChild)
    ensures NodeIds(bcs + [bc]) == NodeIds(bcs) + [bc.info.nodeId]
  {
  }

  lemma FirstsSnoc(bcs: seq<BrowsedChild>, bc: BrowsedChild)
    ensures Firsts(bcs + [bc]) == if bc.info.nodeId in NodeIds(bcs) then Firsts(bcs) else Firsts(bcs) + [bc]
  {
    assert (bcs + [bc])[..|bcs|] == bcs;
  }

  lemma DescribeAllSnoc(cfg: Config, bcs: seq<BrowsedChild>, bc: BrowsedChild)
    ensures DescribeAll(cfg, bcs + [bc]) == DescribeAll(cfg, bcs) + [Describe(cfg, bc)]
  {
  }

  lemma VisitedSnoc(bcs: seq<BrowsedChild>, bc: BrowsedChild)
    ensures ToSet(NodeIds(bcs + [bc])) == ToSet(NodeIds(bcs)) + {bc.info.nodeId}
  {
    NodeIdsSnoc(bcs, bc);
  }

  lemma TakenOld(cfg: Config, bcs: seq<BrowsedChild>, bc: BrowsedChild)
    requires bc.info.nodeId in NodeIds(bcs)
    ensures Taken(cfg, bcs + [bc]) == Taken(cfg, bcs)
  {
    FirstsSnoc(bcs, bc);
    VisitedSnoc(bcs, bc);
    assert ToSet(NodeIds(bcs)) + {bc.info.nodeId} == ToSet(NodeIds(bcs));
  }

  lemma TakenNewQueue(cfg: Config, bcs: seq<BrowsedChild>, bc: BrowsedChild)
    requires bc.info.nodeId !in NodeIds(bcs)
    ensures Taken(cfg, bcs + [bc]).queue
         == Taken(cfg, bcs).queue + (if bc.info.nodeClass in cfg.browseable then [bc.info.nodeId] else [])
  {
    FirstsSnoc(bcs, bc);
    OnlySnoc(Some(cfg.browseable), None, Firsts(bcs), bc);
    NodeIdsSnoc(Only(Some(cfg.browseable), None, Firsts(bcs)), bc);
  }

  lemma TakenNewOut(cfg: Config, bcs: seq<BrowsedChild>, bc: BrowsedChild)
    requires bc.info.nodeId !in NodeIds(bcs)
    ensures Taken(cfg, bcs + [bc]).out
         == Taken(cfg, bcs).out + (if Admitted(cfg, bc.info.namespaceUri) then [Describe(cfg, bc)] else [])
  {
    FirstsSnoc(bcs, bc);
    OnlySnoc(None, cfg.allow, Firsts(bcs), bc);
    DescribeAllSnoc(cfg, Only(None, cfg.allow, Firsts(bcs)), bc);
  }

  lemma VisitTakesFirst(cfg: Config, bcs: seq<BrowsedChild>, bc: BrowsedChild)
    ensures Visit(cfg, Taken(cfg, bcs), bc) == Taken(cfg, bcs + [bc])
  {
    assert bc.info.nodeId in ToSet(NodeIds(bcs)) <==> bc.info.nodeId in NodeIds(bcs);
    if bc.info.nodeId in NodeIds(bcs) {
      TakenOld(cfg, bcs, bc);
    } else {
      TakenNewQueue(cfg, bcs, bc);
      TakenNewOut(cfg, bcs, bc);
      VisitedSnoc(bcs, bc);
      NewVisit(cfg, Taken(cfg, bcs), bc);
    }
  }

  lemma NewVisit(cfg: Config, w: Walk, bc: BrowsedChild)
    requires bc.info.nodeId !in w.visited
    ensures var v := Visit(cfg, w, bc);
      && v.queue == w.queue + (if bc.info.nodeClass in cfg.browseable then [bc.info.nodeId] else [])
      && v.visited == w.visited + {bc.info.nodeId} && v.expanded == w.expanded
      && v.out == w.out + (if Admitted(cfg, bc.info.namespaceUri) then [Describe(cfg, bc)] else [])
  {
  }

  lemma {:induction false} VisitAllTakesFirsts(cfg: Config, bcs: seq<BrowsedChild>, more: seq<BrowsedChild>)
    ensures VisitAll(cfg, Taken(cfg, bcs), more) == Taken(cfg, bcs + more)
    decreases |more|
  {
    if more == [] {
      assert bcs + more == bcs;
    } else {
      var step := bcs + [more[0]];
      assert step + more[1..] == bcs + more;
      VisitTakesFirst(cfg, bcs, more[0]);
      VisitAllTakesFirsts(cfg, step, more[1..]);
    }
  }

  /** The walk with what it has expanded put back in front of its queue. */
  function Unexpanded(w: Walk): Walk {
    w.(queue := w.expanded + w.queue, expanded := [])
  }

  lemma {:induction false} FlattenSnoc(space: Space, parents: seq<string>, p: string)
    ensures Flatten(space, parents + [p]) == Flatten(space, parents) + space.children(p)
  {
    if parents == [] {
      assert parents + [p] == [p] && [p][1..] == [];
    } else {
      assert (parents + [p])[1..] == parents[1..] + [p];
      FlattenSnoc(space, parents[1..], p);
    }
  }

  lemma Rejoined(expanded: seq<string>, queue: seq<string>, tail: seq<string>)
    requires queue != []
    ensures (expanded + [queue[0]]) + (queue[1..] + tail) == (expanded + queue) + tail
  {
    assert queue == [queue[0]] + queue[1..];
  }

  lemma ExpandUnexpanded(cfg: Config, space: Space, w: Walk)
    requires w.queue != []
    ensures Unexpanded(Expand(cfg, space, w)) == VisitAll(cfg, Unexpanded(w), space.children(w.queue[0]))
    ensures Expand(cfg, space, w).expanded == w.expanded + [w.queue[0]]
  {
    var p, bcs, q := w.queue[0], space.children(w.queue[0]), w.queue[1..];
    var r := VisitAll(cfg, w.(queue := []), bcs);
    VisitFromEmptyQueue(cfg, w, w.expanded + w.queue, [], bcs);
    VisitFromEmptyQueue(cfg, w, q, w.expanded + [p], bcs);
    Rejoined(w.expanded, w.queue, r.queue);
    assert Expand(cfg, space, w) == r.(queue := q + r.queue, expanded := w.expanded + [p]);
  }

  lemma MetSnoc(space: Space, roots: seq<string>, parents: seq<string>, p: string)
    ensures Met(space, roots, parents + [p]) == Met(space, roots, parents) + space.children(p)
  {
    FlattenSnoc(space, parents, p);
    var a, b, c := RootSightings(space, roots), Flatten(space, parents), space.children(p);
    assert a + (b + c) == (a + b) + c;
  }

  lemma ExpandTakesFirsts(cfg: Config, space: Space, roots: seq<string>, w: Walk)
    requires w.queue != [] && Unexpanded(w) == Taken(cfg, Met(space, roots, w.expanded))
    ensures var next := Expand(cfg, space, w); Unexpanded(next) == Taken(cfg, Met(space, roots, next.expanded))
  {
    var p, bcs := w.queue[0], space.children(w.queue[0]);
    MetSnoc(space, roots, w.expanded, p);
    ExpandUnexpanded(cfg, space, w);
    VisitAllTakesFirsts(cfg, Met(space, roots, w.expanded), bcs);
  }

  lemma {:induction false} BfsTakesFirsts(cfg: Config, space: Space, universe: set<string>, roots: seq<string>, w: Walk)
    requires Closed(universe, space) && ToSet(w.queue) <= universe
    requires Unexpanded(w) == Taken(cfg, Met(space, roots, w.expanded))
    ensures var end := Bfs(cfg, space, universe, w);
      end.queue == [] && Unexpanded(end) == Taken(cfg, Met(space, roots, end.expanded))
    decreases Work(universe, w)
  {
    if w.queue != [] {
      ExpandWorks(cfg, space, universe, w);
      ExpandTakesFirsts(cfg, space, roots, w);
      BfsTakesFirsts(cfg, space, universe, roots, Expand(cfg, space, w));
    }
  }

  lemma BootstrapTakesFirsts(cfg: Config, space: Space, roots: seq<string>)
    ensures var w := Bootstrap(cfg, space, roots); Unexpanded(w) == Taken(cfg, Met(space, roots, w.expanded))
  {
    var bcs := RootSightings(space, roots);
    assert Taken(cfg, []) == START;
    VisitAllTakesFirsts(cfg, [], bcs);
    VisitAllKeepsExpanded(cfg, START, bcs);
    assert [] + bcs == bcs == Met(space, roots, []);
    var queue := Bootstrap(cfg, space, roots).queue;
    assert [] + queue == queue;
  }

  // ------------------------------------------------------------------ what a walk emits

  /** The references that count: the first one to each admitted node, in the order the walk met them. */
  function Sources(cfg: Config, space: Space, roots: seq<string>, expanded: seq<string>): seq<BrowsedChild> {
    Only(None, cfg.allow, Firsts(Met(space, roots, expanded)))
  }

  /** What the record of a node says is what the reference says that first led to it; its type is the type
      definition or, without one, the data type. */
  ghost predicate SaysThe(cfg: Config, n: NodeDescriptor, bc: BrowsedChild) {
    && n.nodeId == bc.info.nodeId && n.displayName == bc.info.displayName && n.nodeClass == bc.info.nodeClass
    && n.namespaceUri == bc.info.namespaceUri && n.connection == cfg.connection
    && n.typeSourceId == (if bc.info.typeDefinition.Some? && bc.info.typeDefinition.value != ""
                          then bc.info.typeDefinition else bc.info.dataType)
    && n.parentNodeId == bc.parent && n.parentRelationship == bc.relationship
    && n.dataTypeNodeId == bc.info.dataType && n.dataTypeName == None
    && n.accessLevel == bc.info.accessLevel && n.valueRank == bc.info.valueRank
    && n.wireNodeId == "" && n.parentWireNodeId == ""
  }

  /** The walk browses the first-met browseable nodes in the order it met them, emits one record for each first-met
      admitted node in that order, and marks as compositions the Objects that one of these was first met from by
      HasComponent. */
  lemma WalkEmitsFirsts(cfg: Config, space: Space, universe: set<string>, roots: seq<string>)
    requires Closed(universe, space) && ToSet(Bootstrap(cfg, space, roots).queue) <= universe
    ensures var goal := Bfs(cfg, space, universe, Bootstrap(cfg, space, roots));
      var nodes, bcs := Reconcile(goal.out), Sources(cfg, space, roots, goal.expanded);
      && goal.expanded == NodeIds(Only(Some(cfg.browseable), None, Firsts(Met(space, roots, goal.expanded))))
      && |nodes| == |bcs| && (forall k :: 0 <= k < |nodes| ==> SaysThe(cfg, nodes[k], bcs[k]))
      && (forall k :: 0 <= k < |nodes| ==>
            (nodes[k].isComposition <==> (nodes[k].nodeClass.Object?
              && exists bc :: bc in bcs && bc.parent == Some(nodes[k].nodeId) && bc.relationship == "HasComponent")))
  {
    BootstrapTakesFirsts(cfg, space, roots);
    BfsTakesFirsts(cfg, space, universe, roots, Bootstrap(cfg, space, roots));
    var goal := Bfs(cfg, space, universe, Bootstrap(cfg, space, roots));
    assert goal.expanded + [] == goal.expanded;
    ReconciledSay(cfg, goal.out, Sources(cfg, space, roots, goal.expanded));
  }

  lemma ReconciledSay(cfg: Config, out: seq<NodeDescriptor>, bcs: seq<BrowsedChild>)
    requires out == DescribeAll(cfg, bcs)
    ensures var nodes := Reconcile(out);
      && |nodes| == |bcs| && (forall k :: 0 <= k < |nodes| ==> SaysThe(cfg, nodes[k], bcs[k]))
      && (forall k :: 0 <= k < |nodes| ==>
            (nodes[k].isComposition <==> (nodes[k].nodeClass.Object?
              && exists bc :: bc in bcs && bc.parent == Some(nodes[k].nodeId) && bc.relationship == "HasComponent")))
  {
    var nodes := Reconcile(out);
    forall k | 0 <= k < |nodes|
      ensures nodes[k].isComposition <==> (nodes[k].nodeClass.Object?
          && exists bc :: bc in bcs && bc.parent == Some(nodes[k].nodeId) && bc.relationship == "HasComponent")
    {
      ReconcileMarks(out, k);
      if bc :| bc in bcs && bc.parent == Some(nodes[k].nodeId) && bc.relationship == "HasComponent" {
        var j :| 0 <= j < |bcs| && bcs[j] == bc;
        assert nodes[j].parentNodeId == bc.parent && nodes[j].parentRelationship == bc.relationship;
      }
      if HasComponents(nodes, nodes[k].nodeId) {
        var j :| 0 <= j < |nodes| && nodes[j].parentNodeId == Some(nodes[k].nodeId)
                 && nodes[j].parentRelationship == "HasComponent";
        assert bcs[j] in bcs && bcs[j].parent == nodes[j].parentNodeId;
      }
    }
  }

  // ------------------------------------------------------------------ down to the server

  /** What the server says about a node in the `i`-th reference of `p`, a Variable with the answers to the first, the
      second and the fourth of its attributes: data type, value rank and access level. */
  ghost predicate IsReference(server: Server, bc: BrowsedChild, p: string, i: nat) {
    && i < |server.refs(p)| && bc.parent == Some(p) && bc.relationship == server.refs(p)[i].relationship
    && var info, id := server.refs(p)[i].info, bc.info.nodeId;
       && id == info.nodeId && bc.info.displayName == info.displayName && bc.info.nodeClass == info.nodeClass
       && bc.info.namespaceUri == info.namespaceUri && bc.info.typeDefinition == info.typeDefinition
       && if info.nodeClass.Variable?
          then
            && IsText(server.attribute(id, 0), bc.info.dataType)
            && IsNumber(server.attribute(id, 1), bc.info.valueRank)
            && IsNumber(server.attribute(id, 3), bc.info.accessLevel)
          else bc.info.dataType == None && bc.info.valueRank == None && bc.info.accessLevel == None
  }

  /** The field holds the answer if that is a text, or a number, and nothing otherwise. */
  ghost predicate IsText(answer: Option<AttrValue>, field: Option<string>) {
    if field.Some? then answer == Some(Text(field.value)) else answer.None? || !answer.value.Text?
  }

  ghost predicate IsNumber(answer: Option<AttrValue>, field: Option<int>) {
    if field.Some? then answer == Some(Number(field.value)) else answer.None? || !answer.value.Number?
  }

  lemma InformedIsReference(server: Server, p: string, i: nat)
    requires i < |server.refs(p)|
    ensures IsReference(server, Informed(server, Child(p, server.refs(p)[i])), p, i)
  {
  }

  lemma {:induction false} MetFrom(server: Server, rootInfo: string -> Option<NodeInfo>, roots: seq<string>,
                                   expanded: seq<string>, bc: BrowsedChild)
    requires bc in Flatten(SpaceOf(server, rootInfo), expanded)
    ensures exists p, i :: p in expanded && IsReference(server, bc, p, i)
  {
    var p, children := expanded[0], SpaceOf(server, rootInfo).children(expanded[0]);
    if bc in children {
      var i :| 0 <= i < |children| && children[i] == bc;
      InformedIsReference(server, p, i);
    } else {
      MetFrom(server, rootInfo, roots, expanded[1..], bc);
      var q, i :| q in expanded[1..] && IsReference(server, bc, q, i);
      assert q in expanded;
    }
  }

  lemma {:induction false} RootMet(space: Space, roots: seq<string>, bc: BrowsedChild)
    requires bc in RootSightings(space, roots)
    ensures exists r :: r in roots && space.rootInfo(r) == Some(bc.info) && bc.parent == None && bc.relationship == ""
  {
    var r := roots[0];
    if bc in RootSightings(space, roots[1..]) {
      RootMet(space, roots[1..], bc);
      var q :| q in roots[1..] && space.rootInfo(q) == Some(bc.info) && bc.parent == None && bc.relationship == "";
      assert q in roots;
    } else {
      assert r in roots && space.rootInfo(r) == Some(bc.info);
    }
  }

  /** So each record of a faultless browse says what a root read said, without a parent, or what a reference of its
      parent and the node's own attributes said. */
  lemma RecordsAreTheServers(server: Server, rootInfo: string -> Option<NodeInfo>, cfg: Config, roots: seq<string>,
                             expanded: seq<string>, bc: BrowsedChild)
    requires bc in Sources(cfg, SpaceOf(server, rootInfo), roots, expanded)
    ensures if bc.parent.None?
            then bc.relationship == "" && exists r :: r in roots && rootInfo(r) == Some(bc.info)
            else bc.parent.value in expanded && exists i :: IsReference(server, bc, bc.parent.value, i)
  {
    if bc in RootSightings(SpaceOf(server, rootInfo), roots) {
      RootMet(SpaceOf(server, rootInfo), roots, bc);
    } else {
      MetFrom(server, rootInfo, roots, expanded, bc);
    }
  }
}
