/** The walk that collects the Variables of a composition (api/routes/values.py). */
module Composition {
  import opened Neutral
  import opened ElementIds
  import opened Registries
  import WireIds

  type Snapshot = Dict<NodeDescriptor>

  function EidOf(n: NodeDescriptor): string {
    ElementRef(n.connection, n.nodeId).AsId()
  }

  /** Every node is filed under connection!node_id. */
  ghost predicate Keyed(snap: Snapshot) {
    snap.Valid() && forall k :: k in snap.at ==> EidOf(snap.at[k]) == k
  }

  predicate IsVariable(snap: Snapshot, e: string) {
    e in snap.at && snap.at[e].nodeClass.Variable?
  }

  predicate IsComposition(snap: Snapshot, e: string) {
    e in snap.at && !snap.at[e].nodeClass.Variable? && snap.at[e].isComposition
  }

  predicate ChildOf(n: NodeDescriptor, parent: NodeDescriptor) {
    && n.connection == parent.connection
    && n.parentNodeId == Some(parent.nodeId)
    && n.parentRelationship == "HasComponent"
  }

  /** The values of `keys` that are HasComponent children of `parent`, in order. */
  function DirectChildren(keys: seq<string>, snap: Snapshot, parent: NodeDescriptor): seq<NodeDescriptor>
    requires forall i :: 0 <= i < |keys| ==> keys[i] in snap.at
  {
    if keys == [] then []
    else if ChildOf(snap.at[keys[0]], parent) then [snap.at[keys[0]]] + DirectChildren(keys[1..], snap, parent)
    else DirectChildren(keys[1..], snap, parent)
  }

  function Ids(nodes: seq<NodeDescriptor>): seq<string> {
    if nodes == [] then [] else [EidOf(nodes[0])] + Ids(nodes[1..])
  }

  function VariableIds(nodes: seq<NodeDescriptor>): seq<string> {
    if nodes == [] then []
    else if nodes[0].nodeClass.Variable? then [EidOf(nodes[0])] + VariableIds(nodes[1..])
    else VariableIds(nodes[1..])
  }

  function Children(snap: Snapshot, e: string): seq<NodeDescriptor>
    requires snap.Valid() && e in snap.at
  {
    assert forall i :: 0 <= i < |snap.keys| ==> snap.keys[i] in ToSet(snap.keys);
    DirectChildren(snap.keys, snap, snap.at[e])
  }

  // ------------------------------------------------------------------ the walk

  /** The ids collected from element `e` and the elements seen by then. */
  function Leaves(snap: Snapshot, e: string, maxDepth: int, seen: set<string>): (r: (seq<string>, set<string>))
    requires snap.Valid()
    ensures seen <= r.1
    decreases snap.at.Keys - seen, 0
  {
    if e in seen then ([], seen)
    else if e !in snap.at then ([], seen + {e})
    else if snap.at[e].nodeClass.Variable? then ([e], seen + {e})
    else if !snap.at[e].isComposition then ([], seen + {e})
    else if maxDepth == 1 then (VariableIds(Children(snap, e)), seen + {e})
    else LeavesOf(snap, Ids(Children(snap, e)), NextDepth(maxDepth), seen + {e})
  }

  function LeavesOf(snap: Snapshot, todo: seq<string>, maxDepth: int,
      seen: set<string>): (r: (seq<string>, set<string>))
    requires snap.Valid()
    ensures seen <= r.1
    decreases snap.at.Keys - seen, |todo|
  {
    if todo == [] then ([], seen) else
      var first := Leaves(snap, todo[0], maxDepth, seen);
      var rest := LeavesOf(snap, todo[1..], maxDepth, first.1);
      (first.0 + rest.0, rest.1)
  }

  function NextDepth(maxDepth: int): int {
    if maxDepth == 0 then 0 else maxDepth - 1
  }

  /** The loop of the last level. */
  method ChildVariables(children: seq<NodeDescriptor>) returns (out: seq<string>)
    ensures out == VariableIds(children)
  {
    out := [];
    assert children[0..] == children;
    for i := 0 to |children|
      invariant VariableIds(children) == out + VariableIds(children[i..])
    {
      if children[i].nodeClass.Variable? {
        out := out + [EidOf(children[i])];
      }
      assert children[i..][1..] == children[i + 1..];
    }
    assert out + [] == out;
  }

  /** `_leaf_variable_ids`; `seen` is shared by the whole recursion. */
  method LeafVariableIds(elementId: string, snap: Snapshot, maxDepth: int, seen: set<string>)
    returns (out: seq<string>, seenAfter: set<string>)
    requires snap.Valid()
    ensures (out, seenAfter) == Leaves(snap, elementId, maxDepth, seen)
    decreases snap.at.Keys - seen, 0
  {
    out, seenAfter := [], seen;
    if elementId in seen {
      return;
    }
    seenAfter := seen + {elementId};
    if elementId !in snap.at {
      return;
    }
    var descriptor := snap.at[elementId];
    if descriptor.nodeClass.Variable? {
      return [elementId], seenAfter;
    }
    if !descriptor.isComposition {
      return;
    }
    var children := Children(snap, elementId);
    if maxDepth == 1 {
      out := ChildVariables(children);
    } else {
      out, seenAfter := LeavesBelow(children, snap, NextDepth(maxDepth), seenAfter);
    }
  }

  /** The loop of a level above the last. */
  method LeavesBelow(children: seq<NodeDescriptor>, snap: Snapshot, nextDepth: int, seen: set<string>)
    returns (out: seq<string>, seenAfter: set<string>)
    requires snap.Valid()
    ensures (out, seenAfter) == LeavesOf(snap, Ids(children), nextDepth, seen)
    decreases snap.at.Keys - seen, |children|
  {
    out, seenAfter := [], seen;
    ghost var all := LeavesOf(snap, Ids(children), nextDepth, seen);
    assert children[0..] == children;
    for i := 0 to |children|
      invariant seen <= seenAfter
      invariant all.0 == out + LeavesOf(snap, Ids(children[i..]), nextDepth, seenAfter).0
      invariant all.1 == LeavesOf(snap, Ids(children[i..]), nextDepth, seenAfter).1
    {
      ghost var todo := Ids(children[i..]);
      assert children[i..][1..] == children[i + 1..] && todo[1..] == Ids(children[i + 1..]);
      var more, now := LeafVariableIds(EidOf(children[i]), snap, nextDepth, seenAfter);
      out, seenAfter := out + more, now;
    }
    assert out + [] == out;
  }

  // ------------------------------------------------------------------ HasComponent distance

  /** The composition that holds `x` as a component. */
  function Parent(snap: Snapshot, x: string): Option<string> {
    if x !in snap.at || snap.at[x].parentNodeId.None? then None else
      var p := ElementRef(snap.at[x].connection, snap.at[x].parentNodeId.value).AsId();
      if IsComposition(snap, p) && ChildOf(snap.at[x], snap.at[p]) then Some(p) else None
  }

  /** The element `n` HasComponent levels above `x`, all of those above being compositions. */
  function Above(snap: Snapshot, x: string, n: nat): Option<string> {
    if n == 0 then Some(x) else
      match Above(snap, x, n - 1)
      case None => None
      case Some(y) => Parent(snap, y)
  }

  /** `e` is `n` levels above `x`, and no element below it on the way is in `barred`. */
  ghost predicate Hit(snap: Snapshot, x: string, n: nat, e: string, barred: set<string>) {
    && Above(snap, x, n) == Some(e)
    && forall j: nat :: j < n ==> Above(snap, x, j).Some? && Above(snap, x, j).value !in barred
  }

  /** As `Hit` one level higher, the step before `e` being one of `via`. */
  ghost predicate Via(snap: Snapshot, x: string, n: nat, e: string, barred: set<string>, via: seq<string>) {
    Hit(snap, x, n + 1, e, barred) && Above(snap, x, n).Some? && Above(snap, x, n).value in via
  }

  predicate Within(n: nat, maxDepth: int) {
    maxDepth <= 0 || n <= maxDepth
  }

  lemma {:induction false} AboveAdds(snap: Snapshot, x: string, i: nat, y: string, j: nat)
    requires Above(snap, x, i) == Some(y)
    ensures Above(snap, x, i + j) == Above(snap, y, j)
  {
    if j > 0 {
      AboveAdds(snap, x, i, y, j - 1);
    }
  }

  lemma {:induction false} ChildrenExact(keys: seq<string>, snap: Snapshot, parent: NodeDescriptor)
    requires Keyed(snap) && NoRepeats(keys) && forall i :: 0 <= i < |keys| ==> keys[i] in snap.at
    ensures NoRepeats(Ids(DirectChildren(keys, snap, parent)))
    ensures forall x :: x in Ids(DirectChildren(keys, snap, parent)) <==> x in keys && ChildOf(snap.at[x], parent)
    ensures NoRepeats(VariableIds(DirectChildren(keys, snap, parent)))
    ensures forall x :: x in VariableIds(DirectChildren(keys, snap, parent))
                   <==> x in keys && ChildOf(snap.at[x], parent) && snap.at[x].nodeClass.Variable?
  {
    if keys != [] {
      assert keys == [keys[0]] + keys[1..];
      ChildrenExact(keys[1..], snap, parent);
    }
  }

  /** The children of a composition are the elements it is the parent of. */
  lemma ChildIsBelow(snap: Snapshot, e: string)
    requires Keyed(snap) && IsComposition(snap, e)
    ensures NoRepeats(Ids(Children(snap, e))) && NoRepeats(VariableIds(Children(snap, e)))
    ensures forall x :: x in Ids(Children(snap, e)) <==> Parent(snap, x) == Some(e)
    ensures forall x :: x in VariableIds(Children(snap, e)) <==> Parent(snap, x) == Some(e) && IsVariable(snap, x)
  {
    assert forall i :: 0 <= i < |snap.keys| ==> snap.keys[i] in ToSet(snap.keys);
    ChildrenExact(snap.keys, snap, snap.at[e]);
    forall x ensures (x in snap.keys && ChildOf(snap.at[x], snap.at[e])) <==> Parent(snap, x) == Some(e) {
      assert x in snap.keys <==> x in ToSet(snap.keys);
    }
  }

  /** The first meeting with a barred `e` is at one distance only. */
  lemma HitOnce(snap: Snapshot, x: string, n: nat, m: nat, e: string, barred: set<string>)
    requires Hit(snap, x, n, e, barred) && Hit(snap, x, m, e, barred) && e in barred
    ensures n == m
  {
  }

  lemma HitOnlyAt(snap: Snapshot, x: string, n: nat, e: string, barred: set<string>)
    requires Hit(snap, x, n, e, barred) && e in barred
    ensures forall m: nat :: Hit(snap, x, m, e, barred) ==> m == n
  {
    forall m: nat | Hit(snap, x, m, e, barred) ensures m == n {
      HitOnce(snap, x, m, n, e, barred);
    }
  }

  /** What the walk below `e` has seen: what was barred, and what lies below the children done. */
  ghost predicate SeenBy(snap: Snapshot, seen: set<string>, e: string, barred: set<string>, done: seq<string>) {
    && e in barred && barred <= seen
    && forall y :: y in seen ==> y in barred || exists n: nat :: Via(snap, y, n, e, barred, done)
  }

  /** A child not done has been seen only if it was barred. */
  lemma ChildSeenIffBarred(snap: Snapshot, c: string, e: string, barred: set<string>, done: seq<string>,
      seen: set<string>)
    requires Parent(snap, c) == Some(e) && c !in done && SeenBy(snap, seen, e, barred, done)
    ensures c in seen <==> c in barred
  {
    assert Above(snap, c, 0) == Some(c) && Above(snap, c, 1) == Some(e);
    if c !in barred {
      assert Hit(snap, c, 1, e, barred);
      HitOnlyAt(snap, c, 1, e, barred);
    }
  }

  /** Below a child not done, what was seen since changes nothing: any way up to the child that met it would
      pass through `e` first. */
  lemma ThroughChild(snap: Snapshot, x: string, n: nat, c: string, e: string, barred: set<string>, done: seq<string>,
      seen: set<string>)
    requires Parent(snap, c) == Some(e) && c !in done && c !in barred && SeenBy(snap, seen, e, barred, done)
    ensures Hit(snap, x, n, c, seen + {c}) <==> Via(snap, x, n, e, barred, [c])
  {
    if Via(snap, x, n, e, barred, [c]) {
      forall j: nat | j < n ensures Above(snap, x, j).Some? && Above(snap, x, j).value !in seen + {c} {
        NotMet(snap, x, n, j, c, e, barred, done, seen);
      }
    }
    if Hit(snap, x, n, c, seen + {c}) {
      assert Above(snap, x, n + 1) == Some(e);
    }
  }

  lemma NotMet(snap: Snapshot, x: string, n: nat, j: nat, c: string, e: string, barred: set<string>, done: seq<string>,
      seen: set<string>)
    requires c !in done && SeenBy(snap, seen, e, barred, done) && Via(snap, x, n, e, barred, [c]) && j < n
    ensures Above(snap, x, j).Some? && Above(snap, x, j).value !in seen + {c}
  {
    var y := Above(snap, x, j).value;
    assert Above(snap, x, n) == Some(c) && Above(snap, x, n + 1) == Parent(snap, c) == Some(e);
    assert Above(snap, x, j + 1) == Parent(snap, y) && Above(snap, x, j + 1) != Some(e);
    AboveAdds(snap, x, j, y, n - j);
    UpFrom(snap, x, n + 1, j, y, e, barred);
    HitOnlyAt(snap, y, n + 1 - j, e, barred);
  }

  lemma UpFrom(snap: Snapshot, x: string, n: nat, j: nat, y: string, e: string, barred: set<string>)
    requires Hit(snap, x, n, e, barred) && j <= n && Above(snap, x, j) == Some(y)
    ensures Hit(snap, y, n - j, e, barred)
  {
    AboveAdds(snap, x, j, y, n - j);
    forall i: nat | i < n - j ensures Above(snap, y, i).Some? && Above(snap, y, i).value !in barred {
      AboveAdds(snap, x, j, y, i);
    }
  }

  // ------------------------------------------------------------------ what the walk collects

  ghost predicate Found(snap: Snapshot, x: string, e: string, barred: set<string>, maxDepth: int) {
    IsVariable(snap, x) && exists n: nat :: Within(n, maxDepth) && Hit(snap, x, n, e, barred)
  }

  ghost predicate FoundVia(snap: Snapshot, x: string, e: string, barred: set<string>, maxDepth: int, via: seq<string>) {
    IsVariable(snap, x) && exists n: nat :: Within(n, maxDepth) && Via(snap, x, n, e, barred, via)
  }

  /** A Variable is seen only after the composition that holds it. */
  ghost predicate HoldersSeen(snap: Snapshot, seen: set<string>) {
    forall x :: x in seen && IsVariable(snap, x) && Parent(snap, x).Some? ==> Parent(snap, x).value in seen
  }

  ghost predicate CollectsBelow(snap: Snapshot, r: (seq<string>, set<string>), e: string, maxDepth: int,
      seen: set<string>) {
    && NoRepeats(r.0)
    && (forall x :: x in r.0 <==> Found(snap, x, e, seen + {e}, maxDepth))
    && seen + {e} <= r.1
    && (forall y :: y in r.1 ==> y in seen || exists n: nat :: Hit(snap, y, n, e, seen + {e}))
    && HoldersSeen(snap, r.1)
  }

  ghost predicate CollectsVia(snap: Snapshot, r: (seq<string>, set<string>), todo: seq<string>, maxDepth: int,
                              e: string, barred: set<string>, done: seq<string>) {
    && NoRepeats(r.0)
    && (forall x :: x in r.0 <==> FoundVia(snap, x, e, barred, maxDepth, todo))
    && SeenBy(snap, r.1, e, barred, done + todo)
    && HoldersSeen(snap, r.1)
  }

  lemma VariableCollects(snap: Snapshot, e: string, maxDepth: int, seen: set<string>)
    requires Keyed(snap) && e in snap.at && !IsComposition(snap, e) && e !in seen && HoldersSeen(snap, seen)
    requires IsVariable(snap, e) && Parent(snap, e).Some? ==> Parent(snap, e).value in seen
    ensures CollectsBelow(snap, Leaves(snap, e, maxDepth, seen), e, maxDepth, seen)
  {
    var r := Leaves(snap, e, maxDepth, seen);
    assert Hit(snap, e, 0, e, seen + {e}) && Within(0, maxDepth);
    assert forall y :: Parent(snap, y) != Some(e);
    forall x | Found(snap, x, e, seen + {e}, maxDepth) ensures x == e && IsVariable(snap, e) {
      var n: nat :| Within(n, maxDepth) && Hit(snap, x, n, e, seen + {e});
      assert n == 0;
    }
    assert forall x :: x in r.0 <==> x == e && IsVariable(snap, e);
  }

  lemma LastLevelCollects(snap: Snapshot, e: string, seen: set<string>)
    requires Keyed(snap) && IsComposition(snap, e) && e !in seen && HoldersSeen(snap, seen)
    ensures CollectsBelow(snap, Leaves(snap, e, 1, seen), e, 1, seen)
  {
    var r := Leaves(snap, e, 1, seen);
    var barred := seen + {e};
    ChildIsBelow(snap, e);
    forall x ensures x in r.0 <==> Found(snap, x, e, barred, 1) {
      if x in r.0 {
        assert Above(snap, x, 0) == Some(x) && Above(snap, x, 1) == Some(e);
        assert Within(1, 1) && Hit(snap, x, 1, e, barred);
      }
      if Found(snap, x, e, barred, 1) {
        var n: nat :| Within(n, 1) && Hit(snap, x, n, e, barred);
        assert n == 1 && Above(snap, x, 0) == Some(x) && Above(snap, x, 1) == Parent(snap, x);
      }
    }
    assert Hit(snap, e, 0, e, barred);
  }

  lemma {:induction false} LeavesCollect(snap: Snapshot, e: string, maxDepth: int, seen: set<string>)
    requires Keyed(snap) && e in snap.at && e !in seen && HoldersSeen(snap, seen)
    requires IsVariable(snap, e) && Parent(snap, e).Some? ==> Parent(snap, e).value in seen
    ensures CollectsBelow(snap, Leaves(snap, e, maxDepth, seen), e, maxDepth, seen)
    decreases snap.at.Keys - seen, 0
  {
    if !IsComposition(snap, e) {
      VariableCollects(snap, e, maxDepth, seen);
    } else if maxDepth == 1 {
      LastLevelCollects(snap, e, seen);
    } else {
      ChildIsBelow(snap, e);
      var todo := Ids(Children(snap, e));
      LeavesOfCollect(snap, todo, NextDepth(maxDepth), seen + {e}, e, seen + {e}, []);
      ChildrenCollectBelow(snap, Leaves(snap, e, maxDepth, seen), todo, maxDepth, e, seen);
    }
  }

  lemma ChildrenCollectBelow(snap: Snapshot, r: (seq<string>, set<string>), todo: seq<string>, maxDepth: int,
      e: string, seen: set<string>)
    requires Keyed(snap) && IsComposition(snap, e) && maxDepth != 1
    requires forall x :: x in todo <==> Parent(snap, x) == Some(e)
    requires CollectsVia(snap, r, todo, NextDepth(maxDepth), e, seen + {e}, [])
    ensures CollectsBelow(snap, r, e, maxDepth, seen)
  {
    var barred := seen + {e};
    forall x ensures Found(snap, x, e, barred, maxDepth) <==> FoundVia(snap, x, e, barred, NextDepth(maxDepth), todo) {
      if Found(snap, x, e, barred, maxDepth) {
        var n: nat :| Within(n, maxDepth) && Hit(snap, x, n, e, barred);
        assert Above(snap, x, 0) == Some(x) && n > 0;
        assert Parent(snap, Above(snap, x, n - 1).value) == Some(e);
        assert Within(n - 1, NextDepth(maxDepth)) && Via(snap, x, n - 1, e, barred, todo);
      }
      if FoundVia(snap, x, e, barred, NextDepth(maxDepth), todo) {
        var n: nat :| Within(n, NextDepth(maxDepth)) && Via(snap, x, n, e, barred, todo);
        assert Within(n + 1, maxDepth) && Hit(snap, x, n + 1, e, barred);
      }
    }
    forall y | y in r.1 && y !in barred ensures exists n: nat :: Hit(snap, y, n, e, barred) {
      assert [] + todo == todo;
      var n: nat :| Via(snap, y, n, e, barred, todo);
      assert Hit(snap, y, n + 1, e, barred);
    }
    assert Hit(snap, e, 0, e, barred);
  }

  lemma {:induction false} LeavesOfCollect(snap: Snapshot, todo: seq<string>, maxDepth: int, seen: set<string>,
                                           e: string, barred: set<string>, done: seq<string>)
    requires Keyed(snap) && NoRepeats(todo) && HoldersSeen(snap, seen) && SeenBy(snap, seen, e, barred, done)
    requires forall i :: 0 <= i < |todo| ==> Parent(snap, todo[i]) == Some(e) && todo[i] !in done
    ensures CollectsVia(snap, LeavesOf(snap, todo, maxDepth, seen), todo, maxDepth, e, barred, done)
    decreases snap.at.Keys - seen, |todo|
  {
    if todo == [] {
      assert done + todo == done;
    } else {
      var c := todo[0];
      var first := Leaves(snap, c, maxDepth, seen);
      ChildSeenIffBarred(snap, c, e, barred, done, seen);
      if c !in seen {
        LeavesCollect(snap, c, maxDepth, seen);
      }
      FirstChild(snap, c, maxDepth, seen, e, barred, done);
      LeavesOfCollect(snap, todo[1..], maxDepth, first.1, e, barred, done + [c]);
      RestOfChildren(snap, todo, maxDepth, first, LeavesOf(snap, todo[1..], maxDepth, first.1), e, barred, done);
    }
  }

  lemma FirstChild(snap: Snapshot, c: string, maxDepth: int, seen: set<string>, e: string, barred: set<string>,
      done: seq<string>)
    requires Keyed(snap) && HoldersSeen(snap, seen) && SeenBy(snap, seen, e, barred, done)
    requires Parent(snap, c) == Some(e) && c !in done && (c in seen <==> c in barred)
    requires c !in seen ==> CollectsBelow(snap, Leaves(snap, c, maxDepth, seen), c, maxDepth, seen)
    ensures CollectsVia(snap, Leaves(snap, c, maxDepth, seen), [c], maxDepth, e, barred, done)
  {
    var r := Leaves(snap, c, maxDepth, seen);
    if c in seen {
      assert forall x, n: nat :: !Via(snap, x, n, e, barred, [c]);
    } else {
      forall x, n: nat ensures Hit(snap, x, n, c, seen + {c}) <==> Via(snap, x, n, e, barred, [c]) {
        ThroughChild(snap, x, n, c, e, barred, done, seen);
      }
    }
    forall y | y in r.1 && y !in barred ensures exists n: nat :: Via(snap, y, n, e, barred, done + [c]) {
      if y in seen {
        var n: nat :| Via(snap, y, n, e, barred, done);
        assert Via(snap, y, n, e, barred, done + [c]);
      } else {
        var n: nat :| Hit(snap, y, n, c, seen + {c});
        assert Via(snap, y, n, e, barred, [c]);
        assert Via(snap, y, n, e, barred, done + [c]);
      }
    }
  }

  lemma JoinNoRepeats(a: seq<string>, b: seq<string>)
    requires NoRepeats(a) && NoRepeats(b) && forall x :: x in a ==> x !in b
    ensures NoRepeats(a + b)
  {
    forall i, j | 0 <= i < |a| <= j < |a + b| ensures (a + b)[i] != (a + b)[j] {
      assert a[i] in a && b[j - |a|] in b;
    }
  }

  lemma RestOfChildren(snap: Snapshot, todo: seq<string>, maxDepth: int, first: (seq<string>, set<string>),
                       rest: (seq<string>, set<string>), e: string, barred: set<string>, done: seq<string>)
    requires todo != [] && NoRepeats(todo) && e in barred
    requires CollectsVia(snap, first, [todo[0]], maxDepth, e, barred, done)
    requires CollectsVia(snap, rest, todo[1..], maxDepth, e, barred, done + [todo[0]])
    ensures CollectsVia(snap, (first.0 + rest.0, rest.1), todo, maxDepth, e, barred, done)
  {
    assert todo == [todo[0]] + todo[1..] && done + [todo[0]] + todo[1..] == done + todo;
    forall x, n: nat ensures Via(snap, x, n, e, barred, todo) <==>
        Via(snap, x, n, e, barred, [todo[0]]) || Via(snap, x, n, e, barred, todo[1..]) {
    }
    forall x, n: nat, m: nat | Via(snap, x, n, e, barred, [todo[0]]) && Via(snap, x, m, e, barred, todo)
        ensures n == m {
      HitOnce(snap, x, n + 1, m + 1, e, barred);
    }
    assert forall x :: x in first.0 ==> FoundVia(snap, x, e, barred, maxDepth, [todo[0]]);
    forall x | x in first.0 ensures x !in rest.0 {
      var n: nat :| Within(n, maxDepth) && Via(snap, x, n, e, barred, [todo[0]]);
      assert forall m: nat :: Via(snap, x, m, e, barred, todo) ==> m == n;
      assert forall m: nat :: !Via(snap, x, m, e, barred, todo[1..]);
    }
    JoinNoRepeats(first.0, rest.0);
  }

  /** On a composition the walk returns, each once, exactly the Variables at HasComponent distance 1 to
      `maxDepth` below it through compositions; any distance for `maxDepth` 0 or less. */
  lemma LeavesExact(snap: Snapshot, e: string, maxDepth: int)
    requires Keyed(snap) && IsComposition(snap, e)
    ensures NoRepeats(Leaves(snap, e, maxDepth, {}).0)
    ensures forall x :: x in Leaves(snap, e, maxDepth, {}).0
                   <==> IsVariable(snap, x) && exists n: nat
                       :: 1 <= n && Within(n, maxDepth) && Above(snap, x, n) == Some(e)
  {
    LeavesCollect(snap, e, maxDepth, {});
    forall x ensures Found(snap, x, e, {} + {e}, maxDepth)
                <==> IsVariable(snap, x) && exists n: nat
                    :: 1 <= n && Within(n, maxDepth) && Above(snap, x, n) == Some(e) {
      if Found(snap, x, e, {} + {e}, maxDepth) {
        var n: nat :| Within(n, maxDepth) && Hit(snap, x, n, e, {} + {e});
        assert Above(snap, x, 0) == Some(x);
        assert 1 <= n && Within(n, maxDepth) && Above(snap, x, n) == Some(e);
      }
      if IsVariable(snap, x) && exists n: nat :: 1 <= n && Within(n, maxDepth) && Above(snap, x, n) == Some(e) {
        var n: nat :| 1 <= n && Within(n, maxDepth) && Above(snap, x, n) == Some(e);
        var m := FirstHit(snap, x, n, e);
      }
    }
  }

  /** The record under `x` is a HasComponent child of the one under `p`, on one connection, and that a composition. */
  ghost predicate IsLink(snap: Snapshot, x: string, p: string) {
    && x in snap.at && p in snap.at
    && snap.at[x].parentRelationship == "HasComponent" && snap.at[x].parentNodeId == Some(snap.at[p].nodeId)
    && snap.at[x].connection == snap.at[p].connection
    && !snap.at[p].nodeClass.Variable? && snap.at[p].isComposition
  }

  /** Such links lead from `x` up to `e`. */
  ghost predicate IsChain(snap: Snapshot, chain: seq<string>, x: string, e: string) {
    && |chain| >= 2 && chain[0] == x && chain[|chain| - 1] == e
    && forall i :: 0 <= i < |chain| - 1 ==> IsLink(snap, chain[i], chain[i + 1])
  }

  lemma {:induction false} ChainIsAbove(snap: Snapshot, chain: seq<string>, x: string, e: string, i: nat)
    requires Keyed(snap) && IsChain(snap, chain, x, e) && i < |chain|
    ensures Above(snap, x, i) == Some(chain[i])
  {
    if i > 0 {
      ChainIsAbove(snap, chain, x, e, i - 1);
      assert IsLink(snap, chain[i - 1], chain[i]) && EidOf(snap.at[chain[i]]) == chain[i];
    }
  }

  lemma ParentIsLink(snap: Snapshot, x: string, p: string)
    requires Keyed(snap) && Parent(snap, x) == Some(p)
    ensures IsLink(snap, x, p)
  {
  }

  lemma ChainGrows(snap: Snapshot, chain: seq<string>, x: string, y: string, e: string)
    requires IsChain(snap, chain, x, y) && IsLink(snap, y, e)
    ensures IsChain(snap, chain + [e], x, e)
  {
    var more := chain + [e];
    forall i | 0 <= i < |more| - 1 ensures IsLink(snap, more[i], more[i + 1]) {
      assert i < |chain| - 1 ==> IsLink(snap, chain[i], chain[i + 1]);
    }
  }

  lemma {:induction false} AboveIsChain(snap: Snapshot, x: string, n: nat, e: string) returns (chain: seq<string>)
    requires Keyed(snap) && n >= 1 && Above(snap, x, n) == Some(e)
    ensures IsChain(snap, chain, x, e) && |chain| == n + 1
  {
    var y := Above(snap, x, n - 1).value;
    ParentIsLink(snap, y, e);
    if n == 1 {
      assert Above(snap, x, 0) == Some(x);
      chain := [x, e];
    } else {
      chain := AboveIsChain(snap, x, n - 1, y);
      ChainGrows(snap, chain, x, y, e);
      chain := chain + [e];
    }
  }

  /** In terms of the records alone: returned is exactly what is a Variable and has a chain of at most `maxDepth` steps
      up to the composition, of any length for `maxDepth` 0 or less. */
  lemma LeavesByChain(snap: Snapshot, e: string, maxDepth: int, x: string)
    requires Keyed(snap) && e in snap.at && !snap.at[e].nodeClass.Variable? && snap.at[e].isComposition
    ensures x in Leaves(snap, e, maxDepth, {}).0 <==>
      && x in snap.at && snap.at[x].nodeClass.Variable?
      && exists chain :: IsChain(snap, chain, x, e) && (maxDepth > 0 ==> |chain| - 1 <= maxDepth)
  {
    LeavesExact(snap, e, maxDepth);
    if x in Leaves(snap, e, maxDepth, {}).0 {
      var n: nat :| 1 <= n && Within(n, maxDepth) && Above(snap, x, n) == Some(e);
      var chain := AboveIsChain(snap, x, n, e);
      assert maxDepth > 0 ==> |chain| - 1 <= maxDepth;
    }
    if chain :| IsChain(snap, chain, x, e) && (maxDepth > 0 ==> |chain| - 1 <= maxDepth) {
      var n := |chain| - 1;
      ChainIsAbove(snap, chain, x, e, n);
      assert Within(n, maxDepth);
    }
  }

  lemma {:induction false} FirstHit(snap: Snapshot, x: string, n: nat, e: string) returns (m: nat)
    requires Above(snap, x, n) == Some(e)
    ensures m <= n && Hit(snap, x, m, e, {} + {e})
    decreases n
  {
    if exists j: nat :: j < n && Above(snap, x, j) == Some(e) {
      var j: nat :| j < n && Above(snap, x, j) == Some(e);
      m := FirstHit(snap, x, j, e);
    } else {
      m := n;
      forall j: nat | j < n ensures Above(snap, x, j).Some? {
        AboveDefined(snap, x, j, n);
      }
    }
  }

  lemma {:induction false} AboveDefined(snap: Snapshot, x: string, j: nat, n: nat)
    requires j <= n && Above(snap, x, n).Some?
    ensures Above(snap, x, j).Some?
    decreases n
  {
    if j < n {
      AboveDefined(snap, x, j, n - 1);
    }
  }

  lemma OneNode(n: NodeDescriptor)
    ensures Ids([n]) == [EidOf(n)]
    ensures n.nodeClass.Variable? ==> VariableIds([n]) == [EidOf(n)]
  {
    assert [n][1..] == [] && Ids([]) == [] && VariableIds([]) == [];
    assert Ids([n]) == [EidOf(n)] + Ids([]);
    assert n.nodeClass.Variable? ==> VariableIds([n]) == [EidOf(n)] + VariableIds([]);
  }

  /** Without that keying the claim fails: a Variable filed under another id than connection!node_id is dropped
      by the unlimited walk, and the one-level walk names it by an id the snapshot does not have. */
  lemma UnkeyedVariableIsLost(snap: Snapshot, e: string, k: string)
    requires snap.Valid() && snap.keys == [e, k] && e in snap.at && k in snap.at
    requires IsComposition(snap, e) && EidOf(snap.at[e]) == e && !ChildOf(snap.at[e], snap.at[e])
    requires IsVariable(snap, k) && ChildOf(snap.at[k], snap.at[e]) && EidOf(snap.at[k]) !in snap.at
    ensures Leaves(snap, e, 0, {}).0 == []
    ensures Leaves(snap, e, 1, {}).0 == [EidOf(snap.at[k])]
  {
    var c := snap.at[k];
    assert snap.keys[1..] == [k] && snap.keys[1..][1..] == [];
    assert Children(snap, e) == DirectChildren([k], snap, snap.at[e]) == [c];
    OneNode(c);
    assert [EidOf(c)][1..] == [];
    assert Leaves(snap, EidOf(c), 0, {} + {e}).0 == [];
    assert LeavesOf(snap, [EidOf(c)], 0, {} + {e}).0 == [] + [];
  }

  /** A composition with a NodeId of text, and a Variable with a numeric one below it. */
  const TANK := NodeDescriptor("s=T", "c", "T", Object, "", None, None, true, "", None, None, None, None, "", "")
  const LEVEL := NodeDescriptor("i=5", "c", "L", Variable, "", None, Some("s=T"), false, "HasComponent", None, None,
      None, None, "", "")

  const STAMPED := [TANK.(wireNodeId := "s=T"), LEVEL.(wireNodeId := "L", parentWireNodeId := "s=T")]

  lemma StampedTank()
    ensures WireIds.StampAll([TANK, LEVEL]).out == STAMPED
  {
    var nodes := [TANK, LEVEL];
    assert nodes[..1] == [TANK] && nodes[..1][..0] == [];
    assert "i=5"[2..] == "5" && WireIds.IsNumericIdentifier("i=5") && WireIds.IsNumeric("i=5");
    var one := WireIds.StampAll([TANK]);
    assert one == WireIds.Stamp(WireIds.StampAll([]), TANK);
    assert one.out == [STAMPED[0]] && one.seen == {"s=T"};
    assert |"s=T"| == 3 && |"L"| == 1;
    assert WireIds.StampAll(nodes) == WireIds.Stamp(one, LEVEL);
  }

  lemma TankSnapshot()
    ensures var snap := Desired(STAMPED);
      snap.keys == ["c!s=T", "c!L"] && snap.at == map["c!s=T" := STAMPED[0], "c!L" := STAMPED[1]]
  {
    assert Key(STAMPED[0]) == "c!s=T" && Key(STAMPED[1]) == "c!L";
    assert |"c!s=T"| == 5 && |"c!L"| == 3;
    assert STAMPED[..1] == [STAMPED[0]] && STAMPED[..1][..0] == [];
    assert Desired([STAMPED[0]]) == Dict(["c!s=T"], map["c!s=T" := STAMPED[0]]);
    assert Desired(STAMPED) == Desired([STAMPED[0]]).Put("c!L", STAMPED[1]);
  }

  /** As stamped and registered, the tank has no Variables at any depth, and one of an unknown id at depth 1. */
  lemma StampedVariableIsLost()
    ensures var snap := Desired(WireIds.StampAll([TANK, LEVEL]).out);
      && IsComposition(snap, "c!s=T") && IsVariable(snap, "c!L") && ChildOf(snap.at["c!L"], snap.at["c!s=T"])
      && snap.Valid() && Leaves(snap, "c!s=T", 0, {}).0 == []
      && Leaves(snap, "c!s=T", 1, {}).0 == ["c!i=5"] && "c!i=5" !in snap.at
  {
    StampedTank();
    TankSnapshot();
    DesiredValid(STAMPED);
    var snap := Desired(STAMPED);
    assert EidOf(STAMPED[0]) == "c!s=T" && EidOf(STAMPED[1]) == "c!i=5" && "c!i=5"[2] != "c!s=T"[2];
    assert |"c!i=5"| != |"c!L"|;
    UnkeyedVariableIsLost(snap, "c!s=T", "c!L");
  }
}
