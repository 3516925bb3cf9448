/** What a composition walk finds when nodes are registered under other ids than connection!node_id
    (api/routes/values.py over core/registry.py). */
module CompositionKeys {
  import opened Neutral
  import opened ElementIds
  import opened Registries
  import opened Composition

  /** The node is filed under the id the walk builds for it. */
  ghost predicate Own(snap: Snapshot, k: string) {
    k in snap.at && EidOf(snap.at[k]) == k
  }

  /** No key spells another node's connection!node_id. */
  ghost predicate NoImpostors(snap: Snapshot) {
    snap.Valid() && forall j :: j in snap.at && EidOf(snap.at[j]) in snap.at ==> Own(snap, j)
  }

  /** HasComponent links in the snapshot from `way[0]` up to `e`, through compositions. */
  ghost predicate IsWay(snap: Snapshot, way: seq<string>, e: string) {
    && |way| >= 2 && way[|way| - 1] == e
    && (forall i :: 0 <= i < |way| ==> way[i] in snap.at)
    && forall i :: 0 <= i < |way| - 1 ==> IsStep(snap, way[i], way[i + 1])
  }

  ghost predicate IsStep(snap: Snapshot, x: string, p: string) {
    x in snap.at && IsComposition(snap, p) && ChildOf(snap.at[x], snap.at[p])
  }

  /** Everything on the way below its end is filed under its own id. */
  ghost predicate OwnBelow(snap: Snapshot, way: seq<string>) {
    forall i :: 0 <= i < |way| - 1 ==> Own(snap, way[i])
  }

  // ------------------------------------------------------------------ the snapshot as the walk sees it

  /** The keys of nodes filed under their own id, and the own id of `e`, in snapshot order. */
  ghost function OwnKeys(keys: seq<string>, snap: Snapshot, e: string): seq<string>
    requires e in snap.at
  {
    if keys == [] then []
    else if Own(snap, keys[0]) then [keys[0]] + OwnKeys(keys[1..], snap, e)
    else if keys[0] == e then [EidOf(snap.at[e])] + OwnKeys(keys[1..], snap, e)
    else OwnKeys(keys[1..], snap, e)
  }

  ghost function Seen(snap: Snapshot, e: string): Snapshot
    requires e in snap.at
  {
    var keys := OwnKeys(snap.keys, snap, e);
    Dict(keys, map x | x in ToSet(keys) :: if x in snap.at then snap.at[x] else snap.at[e])
  }

  lemma {:induction false} OwnKeysExact(keys: seq<string>, snap: Snapshot, e: string)
    requires NoImpostors(snap) && e in snap.at && NoRepeats(keys)
    ensures forall x :: x in OwnKeys(keys, snap, e) <==>
        (x in keys && Own(snap, x)) || (e in keys && x == EidOf(snap.at[e]))
    ensures NoRepeats(OwnKeys(keys, snap, e))
  {
    if keys != [] {
      assert keys == [keys[0]] + keys[1..];
      assert forall i :: 0 <= i < |keys[1..]| ==> keys[1..][i] == keys[i + 1];
      assert keys[0] !in keys[1..];
      OwnKeysExact(keys[1..], snap, e);
      var r, rest := EidOf(snap.at[e]), OwnKeys(keys[1..], snap, e);
      assert r in snap.at ==> Own(snap, e);
      assert Own(snap, keys[0]) ==> keys[0] !in rest;
      assert keys[0] == e && !Own(snap, e) ==> r !in rest;
      assert forall i :: 0 <= i < |rest| ==> rest[i] in rest;
    }
  }

  lemma SeenIsKeyed(snap: Snapshot, e: string)
    requires NoImpostors(snap) && IsComposition(snap, e)
    ensures Keyed(Seen(snap, e)) && IsComposition(Seen(snap, e), EidOf(snap.at[e]))
    ensures forall x :: x in Seen(snap, e).at <==> Own(snap, x) || x == EidOf(snap.at[e])
    ensures Seen(snap, e).at[EidOf(snap.at[e])] == snap.at[e]
    ensures forall x :: Own(snap, x) ==> Seen(snap, e).at[x] == snap.at[x]
  {
    OwnKeysExact(snap.keys, snap, e);
    assert forall x :: x in snap.at <==> x in ToSet(snap.keys);
  }

  // ------------------------------------------------------------------ both walks side by side

  /** The two walks have seen the same nodes among those filed under their own id. */
  ghost predicate SameSeen(snap: Snapshot, e: string, seen: set<string>, own: set<string>) {
    && e in snap.at && EidOf(snap.at[e]) in own
    && forall x :: Own(snap, x) ==> (x in seen <==> x in own)
  }

  /** They have collected the same keys of the snapshot. */
  ghost predicate SameFound(snap: Snapshot, found: seq<string>, own: seq<string>) {
    forall k :: k in snap.at ==> (k in found <==> k in own)
  }

  ghost predicate Alike(snap: Snapshot, e: string, r: (seq<string>, set<string>), own: (seq<string>, set<string>)) {
    SameFound(snap, r.0, own.0) && SameSeen(snap, e, r.1, own.1)
  }

  lemma {:induction false} OwnKeysSeen(keys: seq<string>, snap: Snapshot, e: string)
    requires NoImpostors(snap) && IsComposition(snap, e) && forall i :: 0 <= i < |keys| ==> keys[i] in snap.at
    ensures forall i :: 0 <= i < |OwnKeys(keys, snap, e)| ==> OwnKeys(keys, snap, e)[i] in Seen(snap, e).at
  {
    SeenIsKeyed(snap, e);
    if keys != [] {
      OwnKeysSeen(keys[1..], snap, e);
    }
  }

  /** The children among `keys` in the other snapshot. */
  ghost function ChildrenThere(keys: seq<string>, snap: Snapshot, e: string, parent: NodeDescriptor)
    : seq<NodeDescriptor>
    requires NoImpostors(snap) && IsComposition(snap, e) && forall i :: 0 <= i < |keys| ==> keys[i] in snap.at
  {
    OwnKeysSeen(keys, snap, e);
    DirectChildren(OwnKeys(keys, snap, e), Seen(snap, e), parent)
  }

  /** One key more: a node under its own id is met in both, `e` in both though under another key, and any other
      only in the first. */
  lemma FirstThere(keys: seq<string>, snap: Snapshot, e: string, parent: NodeDescriptor)
    requires NoImpostors(snap) && IsComposition(snap, e) && forall i :: 0 <= i < |keys| ==> keys[i] in snap.at
    requires keys != []
    ensures ChildrenThere(keys, snap, e, parent)
         == (if ChildOf(snap.at[keys[0]], parent) && (Own(snap, keys[0]) || keys[0] == e)
             then [snap.at[keys[0]]] else [])
              + ChildrenThere(keys[1..], snap, e, parent)
  {
    SeenIsKeyed(snap, e);
    OwnKeysSeen(keys, snap, e);
    OwnKeysSeen(keys[1..], snap, e);
    var rest := OwnKeys(keys[1..], snap, e);
    assert ([keys[0]] + rest)[1..] == rest && ([EidOf(snap.at[e])] + rest)[1..] == rest;
  }

  lemma {:induction false} VariablesAlike(keys: seq<string>, snap: Snapshot, e: string, parent: NodeDescriptor)
    requires NoImpostors(snap) && IsComposition(snap, e)
    requires forall i :: 0 <= i < |keys| ==> keys[i] in snap.at
    ensures SameFound(snap, VariableIds(DirectChildren(keys, snap, parent)),
                      VariableIds(ChildrenThere(keys, snap, e, parent)))
  {
    if keys != [] {
      VariablesAlike(keys[1..], snap, e, parent);
      FirstThere(keys, snap, e, parent);
      var n, later := snap.at[keys[0]], ChildrenThere(keys[1..], snap, e, parent);
      assert ([n] + later)[1..] == later && [] + later == later;
    }
  }

  lemma {:induction false} WalksAlike(snap: Snapshot, e: string, x: string, maxDepth: int, seen: set<string>,
      own: set<string>)
    requires NoImpostors(snap) && IsComposition(snap, e) && SameSeen(snap, e, seen, own) && Own(snap, x)
    ensures Seen(snap, e).Valid()
    ensures Alike(snap, e, Leaves(snap, x, maxDepth, seen), Leaves(Seen(snap, e), x, maxDepth, own))
    decreases snap.at.Keys - seen, 0
  {
    SeenIsKeyed(snap, e);
    if x !in seen && IsComposition(snap, x) {
      ChildrenAlike(snap, e, x, x, maxDepth, seen + {x}, own + {x});
    }
  }

  /** The children of the node filed under `x` in the snapshot and under `y` in the other. */
  lemma {:induction false} ChildrenAlike(snap: Snapshot, e: string, x: string, y: string, maxDepth: int,
      seen: set<string>, own: set<string>)
    requires NoImpostors(snap) && IsComposition(snap, e) && SameSeen(snap, e, seen, own)
    requires x in snap.at && y in Seen(snap, e).at && Seen(snap, e).at[y] == snap.at[x]
    ensures Seen(snap, e).Valid()
    ensures if maxDepth == 1 then SameFound(snap, VariableIds(Children(snap, x)),
        VariableIds(Children(Seen(snap, e), y)))
            else Alike(snap, e, LeavesOf(snap, Ids(Children(snap, x)), NextDepth(maxDepth), seen),
                       LeavesOf(Seen(snap, e), Ids(Children(Seen(snap, e), y)), NextDepth(maxDepth), own))
    decreases snap.at.Keys - seen, |snap.keys| + 1
  {
    SeenIsKeyed(snap, e);
    assert forall i :: 0 <= i < |snap.keys| ==> snap.keys[i] in ToSet(snap.keys);
    if maxDepth == 1 {
      VariablesAlike(snap.keys, snap, e, snap.at[x]);
    } else {
      ListsAlike(snap.keys, snap, e, snap.at[x], NextDepth(maxDepth), seen, own);
    }
  }

  lemma SkipFirst(snap: Snapshot, x: string, later: seq<string>, maxDepth: int, seen: set<string>)
    requires snap.Valid() && (x in seen || x !in snap.at)
    ensures LeavesOf(snap, [x] + later, maxDepth, seen) == LeavesOf(snap, later, maxDepth, seen + {x})
  {
    assert ([x] + later)[1..] == later;
    assert Leaves(snap, x, maxDepth, seen) == ([], seen + {x}) by {
      assert x in seen ==> seen + {x} == seen;
    }
    var rest := LeavesOf(snap, later, maxDepth, seen + {x});
    assert [] + rest.0 == rest.0;
  }

  lemma IdsFirst(n: NodeDescriptor, later: seq<NodeDescriptor>)
    ensures Ids([n] + later) == [EidOf(n)] + Ids(later) && Ids([] + later) == Ids(later)
  {
    assert ([n] + later)[1..] == later && [] + later == later;
  }

  lemma {:induction false} ListsAlike(keys: seq<string>, snap: Snapshot, e: string, parent: NodeDescriptor,
      maxDepth: int, seen: set<string>, own: set<string>)
    requires NoImpostors(snap) && IsComposition(snap, e) && SameSeen(snap, e, seen, own)
    requires forall i :: 0 <= i < |keys| ==> keys[i] in snap.at
    ensures Seen(snap, e).Valid()
    ensures Alike(snap, e, LeavesOf(snap, Ids(DirectChildren(keys, snap, parent)), maxDepth, seen),
                  LeavesOf(Seen(snap, e), Ids(ChildrenThere(keys, snap, e, parent)), maxDepth, own))
    decreases snap.at.Keys - seen, |keys|, 1
  {
    SeenIsKeyed(snap, e);
    if keys != [] {
      var k := keys[0];
      FirstThere(keys, snap, e, parent);
      IdsFirst(snap.at[k], ChildrenThere(keys[1..], snap, e, parent));
      IdsFirst(snap.at[k], DirectChildren(keys[1..], snap, parent));
      if !ChildOf(snap.at[k], parent) {
        ListsAlike(keys[1..], snap, e, parent, maxDepth, seen, own);
      } else if Own(snap, k) {
        OwnAlike(keys, snap, e, parent, maxDepth, seen, own);
      } else {
        var stray := EidOf(snap.at[k]);
        SkipFirst(snap, stray, Ids(DirectChildren(keys[1..], snap, parent)), maxDepth, seen);
        ListsAlike(keys[1..], snap, e, parent, maxDepth, seen + {stray}, own);
        if k == e {
          SkipFirst(Seen(snap, e), stray, Ids(ChildrenThere(keys[1..], snap, e, parent)), maxDepth, own);
          assert own + {stray} == own;
        }
      }
    }
  }

  /** The first key is a child under its own id: both walks go through it, then through the rest. */
  lemma {:induction false} OwnAlike(keys: seq<string>, snap: Snapshot, e: string, parent: NodeDescriptor,
      maxDepth: int, seen: set<string>, own: set<string>)
    requires NoImpostors(snap) && IsComposition(snap, e) && SameSeen(snap, e, seen, own)
    requires keys != [] && forall i :: 0 <= i < |keys| ==> keys[i] in snap.at
    requires ChildOf(snap.at[keys[0]], parent) && Own(snap, keys[0])
    ensures Seen(snap, e).Valid()
    ensures Alike(snap, e,
                  LeavesOf(snap, [keys[0]] + Ids(DirectChildren(keys[1..], snap, parent)), maxDepth, seen),
                  LeavesOf(Seen(snap, e), [keys[0]] + Ids(ChildrenThere(keys[1..], snap, e, parent)), maxDepth, own))
    decreases snap.at.Keys - seen, |keys|, 0
  {
    SeenIsKeyed(snap, e);
    var k := keys[0];
    WalksAlike(snap, e, k, maxDepth, seen, own);
    var r, o := Leaves(snap, k, maxDepth, seen), Leaves(Seen(snap, e), k, maxDepth, own);
    ListsAlike(keys[1..], snap, e, parent, maxDepth, r.1, o.1);
    var here, there := Ids(DirectChildren(keys[1..], snap, parent)), Ids(ChildrenThere(keys[1..], snap, e, parent));
    assert ([k] + here)[1..] == here && ([k] + there)[1..] == there;
  }

  // ------------------------------------------------------------------ ways

  /** A step of the snapshot is a step of the other one, which knows `e` by its own id. */
  function NameOf(snap: Snapshot, e: string, k: string): string
    requires e in snap.at
  {
    if k == e then EidOf(snap.at[e]) else k
  }

  lemma StepUp(snap: Snapshot, e: string, x: string, p: string)
    requires NoImpostors(snap) && IsComposition(snap, e) && Own(snap, x) && (Own(snap, p) || p == e)
        && IsStep(snap, x, p)
    ensures Parent(Seen(snap, e), x) == Some(NameOf(snap, e, p))
  {
    SeenIsKeyed(snap, e);
  }

  lemma {:induction false} OwnWayUp(snap: Snapshot, e: string, way: seq<string>, j: nat)
    requires NoImpostors(snap) && IsComposition(snap, e) && IsWay(snap, way, e) && OwnBelow(snap, way) && j < |way|
    ensures Above(Seen(snap, e), way[0], j) == Some(if j == 0 then way[0] else NameOf(snap, e, way[j]))
  {
    if j > 0 {
      OwnWayUp(snap, e, way, j - 1);
      assert Own(snap, way[j - 1]) && IsStep(snap, way[j - 1], way[j]);
      assert way[j - 1] == e ==> EidOf(snap.at[e]) == e;
      StepUp(snap, e, way[j - 1], way[j]);
    }
  }

  lemma StepDown(snap: Snapshot, e: string, x: string, p: string)
    requires NoImpostors(snap) && IsComposition(snap, e) && Own(snap, x) && Parent(Seen(snap, e), x) == Some(p)
    ensures p == EidOf(snap.at[e]) ==> IsStep(snap, x, e)
    ensures p != EidOf(snap.at[e]) ==> Own(snap, p) && IsStep(snap, x, p)
  {
    SeenIsKeyed(snap, e);
  }

  /** `n` steps up from `x`, and not before, stands `r`. */
  ghost predicate Rises(snap: Snapshot, x: string, n: nat, r: string)
    decreases n
  {
    if n == 0 then x == r else x != r && Parent(snap, x).Some? && Rises(snap, Parent(snap, x).value, n - 1, r)
  }

  lemma {:induction false} HitRises(snap: Snapshot, x: string, n: nat, r: string)
    requires Hit(snap, x, n, r, {} + {r})
    ensures Rises(snap, x, n, r)
    decreases n
  {
    assert Above(snap, x, 0) == Some(x);
    if n > 0 {
      AboveDefined(snap, x, 1, n);
      assert Above(snap, x, 1) == Parent(snap, x);
      UpFrom(snap, x, n, 1, Parent(snap, x).value, r, {} + {r});
      HitRises(snap, Parent(snap, x).value, n - 1, r);
    }
  }

  lemma Lengthen(snap: Snapshot, e: string, x: string, way: seq<string>)
    requires IsWay(snap, way, e) && OwnBelow(snap, way) && Own(snap, x) && IsStep(snap, x, way[0])
    ensures IsWay(snap, [x] + way, e) && OwnBelow(snap, [x] + way)
  {
    var long := [x] + way;
    forall i | 0 <= i < |long| ensures long[i] == if i == 0 then x else way[i - 1] {
    }
    forall i | 0 <= i < |long| - 1 ensures IsStep(snap, long[i], long[i + 1]) && Own(snap, long[i]) {
      assert i > 0 ==> IsStep(snap, way[i - 1], way[i]) && Own(snap, way[i - 1]);
    }
  }

  lemma {:induction false} WayUp(snap: Snapshot, e: string, x: string, n: nat) returns (way: seq<string>)
    requires NoImpostors(snap) && IsComposition(snap, e) && Own(snap, x) && n >= 1
    requires Rises(Seen(snap, e), x, n, EidOf(snap.at[e]))
    ensures IsWay(snap, way, e) && OwnBelow(snap, way) && way[0] == x && |way| == n + 1
    decreases n
  {
    var p := Parent(Seen(snap, e), x).value;
    StepDown(snap, e, x, p);
    if n == 1 {
      way := [x, e];
    } else {
      var rest := WayUp(snap, e, p, n - 1);
      Lengthen(snap, e, x, rest);
      way := [x] + rest;
    }
  }

  ghost predicate ReturnedBy(snap: Snapshot, e: string, maxDepth: int, k: string, way: seq<string>) {
    IsWay(snap, way, e) && way[0] == k && Within(|way| - 1, maxDepth) && OwnBelow(snap, way)
  }

  /** The walk of the snapshot finds what the walk of the other one finds. */
  lemma WalkSeen(snap: Snapshot, e: string, maxDepth: int)
    requires NoImpostors(snap) && IsComposition(snap, e)
    ensures Keyed(Seen(snap, e)) && IsComposition(Seen(snap, e), EidOf(snap.at[e]))
    ensures SameFound(snap, Leaves(snap, e, maxDepth, {}).0, Leaves(Seen(snap, e), EidOf(snap.at[e]), maxDepth, {}).0)
  {
    SeenIsKeyed(snap, e);
    ChildrenAlike(snap, e, e, EidOf(snap.at[e]), maxDepth, {} + {e}, {} + {EidOf(snap.at[e])});
  }

  lemma ReturnedHasWay(snap: Snapshot, e: string, maxDepth: int, k: string)
    requires NoImpostors(snap) && IsComposition(snap, e) && IsVariable(snap, k)
    requires k in Leaves(snap, e, maxDepth, {}).0
    ensures exists way :: ReturnedBy(snap, e, maxDepth, k, way)
  {
    var r, other := EidOf(snap.at[e]), Seen(snap, e);
    WalkSeen(snap, e, maxDepth);
    LeavesExact(other, r, maxDepth);
    SeenIsKeyed(snap, e);
    var n: nat :| 1 <= n && Within(n, maxDepth) && Above(other, k, n) == Some(r);
    var m := FirstHit(other, k, n, r);
    HitRises(other, k, m, r);
    var way := WayUp(snap, e, k, m);
    assert ReturnedBy(snap, e, maxDepth, k, way);
  }

  lemma WayIsReturned(snap: Snapshot, e: string, maxDepth: int, way: seq<string>)
    requires NoImpostors(snap) && IsComposition(snap, e) && |way| > 0 && IsVariable(snap, way[0])
    requires ReturnedBy(snap, e, maxDepth, way[0], way)
    ensures way[0] in Leaves(snap, e, maxDepth, {}).0
  {
    var r, other := EidOf(snap.at[e]), Seen(snap, e);
    WalkSeen(snap, e, maxDepth);
    LeavesExact(other, r, maxDepth);
    SeenIsKeyed(snap, e);
    OwnWayUp(snap, e, way, |way| - 1);
    assert Own(snap, way[0]) && IsVariable(other, way[0]);
  }

  /** A Variable is returned under its key exactly when some way up to the composition, within the depth, has
      it and every composition below the end filed under their own connection!node_id. */
  lemma ReturnedIffOwnWay(snap: Snapshot, e: string, maxDepth: int, k: string)
    requires NoImpostors(snap) && IsComposition(snap, e) && IsVariable(snap, k)
    ensures k in Leaves(snap, e, maxDepth, {}).0 <==> exists way :: ReturnedBy(snap, e, maxDepth, k, way)
  {
    if k in Leaves(snap, e, maxDepth, {}).0 {
      ReturnedHasWay(snap, e, maxDepth, k);
    }
    if way :| ReturnedBy(snap, e, maxDepth, k, way) {
      WayIsReturned(snap, e, maxDepth, way);
    }
  }

  // ------------------------------------------------------------------ the way of a node

  /** No two keys hold the same node. */
  ghost predicate Distinct(snap: Snapshot) {
    forall j, k :: j in snap.at && k in snap.at && EidOf(snap.at[j]) == EidOf(snap.at[k]) ==> j == k
  }

  /** A way that meets its end only there. */
  ghost predicate IsDirect(way: seq<string>, e: string) {
    forall i :: 0 <= i < |way| - 1 ==> way[i] != e
  }

  lemma {:induction false} WaysAgree(snap: Snapshot, way: seq<string>, other: seq<string>, e: string, i: nat)
    requires Distinct(snap) && IsWay(snap, way, e) && IsWay(snap, other, e) && way[0] == other[0]
    requires i < |way| && i < |other|
    ensures way[i] == other[i]
  {
    if i > 0 {
      WaysAgree(snap, way, other, e, i - 1);
      assert IsStep(snap, way[i - 1], way[i]) && IsStep(snap, other[i - 1], other[i]);
      assert EidOf(snap.at[way[i]]) == EidOf(snap.at[other[i]]);
    }
  }

  /** When no two keys hold the same node, a Variable has one direct way up to a composition, and is returned under
      its key exactly when that way is within the depth and everything below its end is filed under its own id. */
  lemma ReturnedIff(snap: Snapshot, e: string, maxDepth: int, way: seq<string>)
    requires NoImpostors(snap) && Distinct(snap) && IsComposition(snap, e)
    requires IsWay(snap, way, e) && IsDirect(way, e) && IsVariable(snap, way[0])
    ensures way[0] in Leaves(snap, e, maxDepth, {}).0 <==> Within(|way| - 1, maxDepth) && OwnBelow(snap, way)
  {
    ReturnedIffOwnWay(snap, e, maxDepth, way[0]);
    assert OwnBelow(snap, way) && Within(|way| - 1, maxDepth) ==> ReturnedBy(snap, e, maxDepth, way[0], way);
    if other :| ReturnedBy(snap, e, maxDepth, way[0], other) {
      if |other| < |way| {
        WaysAgree(snap, way, other, e, |other| - 1);
      }
      forall i | 0 <= i < |way| - 1 ensures Own(snap, way[i]) {
        WaysAgree(snap, way, other, e, i);
        assert Own(snap, other[i]);
      }
    }
  }
}
