/** The snapshot registries of instances and types (core/registry.py). */
module Registries {
  import opened Neutral
  import opened ElementIds
  import opened WireIds

  // ------------------------------------------------------------------ insertion-ordered dictionaries

  datatype Dict<V> = Dict(keys: seq<string>, at: map<string, V>) {
    ghost predicate Valid() {
      NoRepeats(keys) && at.Keys == ToSet(keys)
    }

    function Put(k: string, v: V): Dict<V> {
      Dict(if k in at then keys else keys + [k], at[k := v])
    }

    function Pop(k: string): Dict<V> {
      Dict(Without(keys, k), at - {k})
    }
  }

  const EMPTY: Dict<NodeDescriptor> := Dict([], map[])

  function Without(keys: seq<string>, k: string): seq<string> {
    if keys == [] then [] else (if keys[0] == k then [] else [keys[0]]) + Without(keys[1..], k)
  }

  lemma {:induction false} WithoutExact(keys: seq<string>, k: string)
    ensures forall x :: x in Without(keys, k) <==> x in keys && x != k
    ensures NoRepeats(keys) ==> NoRepeats(Without(keys, k))
  {
    if keys != [] {
      WithoutExact(keys[1..], k);
      assert keys == [keys[0]] + keys[1..];
      assert forall i :: 0 <= i < |keys[1..]| ==> keys[1..][i] == keys[i + 1];
      assert NoRepeats(keys) ==> keys[0] !in keys[1..];
    }
  }

  lemma PutValid<V>(d: Dict<V>, k: string, v: V)
    requires d.Valid()
    ensures d.Put(k, v).Valid()
  {
    assert k !in d.at ==> k !in ToSet(d.keys);
    assert forall i :: 0 <= i < |d.keys| ==> d.keys[i] in ToSet(d.keys);
  }

  lemma PopValid<V>(d: Dict<V>, k: string)
    requires d.Valid()
    ensures d.Pop(k).Valid()
  {
    WithoutExact(d.keys, k);
  }

  function NotIn(keys: seq<string>, taken: set<string>): seq<string> {
    if keys == [] then [] else (if keys[0] in taken then [] else [keys[0]]) + NotIn(keys[1..], taken)
  }

  lemma {:induction false} NotInExact(keys: seq<string>, taken: set<string>)
    ensures forall x :: x in NotIn(keys, taken) <==> x in keys && x !in taken
    ensures NoRepeats(keys) ==> NoRepeats(NotIn(keys, taken))
  {
    if keys != [] {
      NotInExact(keys[1..], taken);
      assert keys == [keys[0]] + keys[1..];
      assert forall i :: 0 <= i < |keys[1..]| ==> keys[1..][i] == keys[i + 1];
      assert NoRepeats(keys) ==> keys[0] !in keys[1..];
    }
  }

  /** It keeps or drops each key in its place. */
  lemma {:induction false} NotInKeepsOrder(before: seq<string>, k: string, after: seq<string>, taken: set<string>)
    ensures NotIn(before + [k] + after, taken)
         == NotIn(before, taken) + (if k in taken then [] else [k]) + NotIn(after, taken)
  {
    var keys := before + [k] + after;
    if before == [] {
      assert keys == [k] + after && keys[1..] == after;
    } else {
      assert keys[1..] == before[1..] + [k] + after;
      NotInKeepsOrder(before[1..], k, after, taken);
    }
  }

  lemma {:induction false} WithoutIsNotIn(keys: seq<string>, taken: set<string>, k: string)
    ensures Without(NotIn(keys, taken), k) == NotIn(keys, taken + {k})
  {
    if keys != [] {
      WithoutIsNotIn(keys[1..], taken, k);
      var rest := NotIn(keys[1..], taken);
      assert ([keys[0]] + rest)[1..] == rest && [] + rest == rest;
    }
  }

  lemma {:induction false} NotInSame(keys: seq<string>, a: set<string>, b: set<string>)
    requires forall k :: k in keys ==> (k in a <==> k in b)
    ensures NotIn(keys, a) == NotIn(keys, b)
  {
    if keys != [] {
      assert keys == [keys[0]] + keys[1..];
      NotInSame(keys[1..], a, b);
    }
  }

  lemma {:induction false} NotInNone(keys: seq<string>)
    ensures NotIn(keys, {}) == keys
  {
    if keys != [] {
      NotInNone(keys[1..]);
    }
  }

  /** `dict.update`: known keys keep their place, new ones follow in the order of `added`. */
  function Merge<V>(d: Dict<V>, added: Dict<V>): Dict<V> {
    Dict(d.keys + NotIn(added.keys, d.at.Keys), d.at + added.at)
  }

  lemma MergeValid<V>(d: Dict<V>, added: Dict<V>)
    requires d.Valid() && added.Valid()
    ensures Merge(d, added).Valid()
  {
    var more := NotIn(added.keys, d.at.Keys);
    NotInExact(added.keys, d.at.Keys);
    assert forall i :: 0 <= i < |d.keys| ==> d.keys[i] in ToSet(d.keys);
    assert forall i :: 0 <= i < |more| ==> more[i] in more;
    assert forall k :: k in added.at <==> k in ToSet(added.keys);
    assert forall k :: k in d.at <==> k in ToSet(d.keys);
  }

  // ------------------------------------------------------------------ instances

  datatype Diff = Diff(added: set<string>, removed: set<string>, kept: set<string>)

  function Compare(before: set<string>, after: set<string>): (diff: Diff)
    ensures diff.added !! diff.removed !! diff.kept
    ensures diff.added + diff.kept == after && diff.removed + diff.kept == before
  {
    Diff(after - before, before - after, after * before)
  }

  /** `wire_node_id or node_id`. */
  function WireOrRaw(n: NodeDescriptor): string {
    if n.wireNodeId != "" then n.wireNodeId else n.nodeId
  }

  function Key(n: NodeDescriptor): string {
    ElementRef(n.connection, WireOrRaw(n)).AsId()
  }

  function Desired(nodes: seq<NodeDescriptor>): Dict<NodeDescriptor>
    decreases |nodes|
  {
    if nodes == [] then EMPTY else
      var n := nodes[|nodes| - 1];
      Desired(nodes[..|nodes| - 1]).Put(Key(n), n)
  }

  lemma {:induction false} DesiredValid(nodes: seq<NodeDescriptor>)
    ensures Desired(nodes).Valid()
    decreases |nodes|
  {
    if nodes != [] {
      var front, n := nodes[..|nodes| - 1], nodes[|nodes| - 1];
      DesiredValid(front);
      PutValid(Desired(front), Key(n), n);
    }
  }

  /** The keys that are not wanted any more. */
  method NoLonger(keys: seq<string>, desired: set<string>) returns (removed: seq<string>)
    ensures forall k :: k in removed <==> k in keys && k !in desired
  {
    removed := [];
    for i := 0 to |keys|
      invariant forall k :: k in removed <==> k in keys[..i] && k !in desired
    {
      assert keys[..i + 1] == keys[..i] + [keys[i]];
      if keys[i] !in desired {
        removed := removed + [keys[i]];
      }
    }
    assert keys[..|keys|] == keys;
  }

  lemma RemovedAre(was: Dict<NodeDescriptor>, desired: Dict<NodeDescriptor>, removed: seq<string>)
    requires was.Valid() && desired.Valid()
    requires forall k :: k in removed <==> k in was.keys && k !in desired.at.Keys
    ensures ToSet(removed) == was.at.Keys - desired.at.Keys
    ensures NotIn(desired.keys, was.at.Keys - ToSet(removed)) == NotIn(desired.keys, was.at.Keys)
    ensures (was.at - ToSet(removed)) + desired.at == desired.at
  {
    assert forall k :: k in was.at <==> k in ToSet(was.keys);
    assert forall k :: k in desired.keys ==> k in ToSet(desired.keys);
    NotInSame(desired.keys, was.at.Keys - ToSet(removed), was.at.Keys);
  }

  function PopAll<V>(d: Dict<V>, removed: seq<string>): Dict<V>
    decreases |removed|
  {
    if removed == [] then d else PopAll(d, removed[..|removed| - 1]).Pop(removed[|removed| - 1])
  }

  lemma {:induction false} PopAllShows<V>(d: Dict<V>, removed: seq<string>)
    requires d.Valid()
    ensures var rest := PopAll(d, removed);
      rest.Valid() && rest.at == d.at - ToSet(removed) && rest.keys == NotIn(d.keys, ToSet(removed))
    decreases |removed|
  {
    if removed == [] {
      NotInNone(d.keys);
      assert ToSet(removed) == {};
    } else {
      var front, k := removed[..|removed| - 1], removed[|removed| - 1];
      PopAllShows(d, front);
      assert removed == front + [k] && ToSet(removed) == ToSet(front) + {k};
      PopValid(PopAll(d, front), k);
      WithoutIsNotIn(d.keys, ToSet(front), k);
    }
  }

  class InstanceRegistry {
    var ref: Dict<NodeDescriptor>

    constructor ()
      ensures ref == EMPTY && ref.Valid()
    {
      ref := EMPTY;
    }

    /** Copy-on-write of a delta. */
    method Update(added: Dict<NodeDescriptor>, removed: seq<string>) returns (diff: Diff)
      requires ref.Valid() && added.Valid()
      modifies this
      ensures ref.Valid()
      ensures ref.at == (old(ref.at) - ToSet(removed)) + added.at
      ensures ref.keys == NotIn(old(ref.keys), ToSet(removed))
          + NotIn(added.keys, old(ref.at.Keys) - ToSet(removed))
      ensures diff.added !! diff.removed !! diff.kept
      ensures diff.added + diff.kept == ref.at.Keys && diff.removed + diff.kept == old(ref.at.Keys)
    {
      var next := ref;
      for i := 0 to |removed|
        invariant ref == old(ref) && next == PopAll(ref, removed[..i])
      {
        assert removed[..i + 1][..i] == removed[..i];
        next := next.Pop(removed[i]);
      }
      assert removed[..|removed|] == removed;
      PopAllShows(ref, removed);
      MergeValid(next, added);
      assert next.at.Keys == ref.at.Keys - ToSet(removed);
      next := Merge(next, added);
      diff := Compare(ref.at.Keys, next.at.Keys);
      ref := next;
    }

    /** Replace the contents by `nodes`, keyed by wire id. */
    method Reconcile(nodes: seq<NodeDescriptor>) returns (diff: Diff)
      requires ref.Valid()
      modifies this
      ensures ref.Valid() && ref.at == Desired(nodes).at
      ensures ref.keys == NotIn(old(ref.keys), old(ref.at.Keys) - Desired(nodes).at.Keys)
          + NotIn(Desired(nodes).keys, old(ref.at.Keys))
      ensures diff.added !! diff.removed !! diff.kept
      ensures diff.added + diff.kept == ref.at.Keys && diff.removed + diff.kept == old(ref.at.Keys)
    {
      var desired := EMPTY;
      for i := 0 to |nodes|
        invariant desired == Desired(nodes[..i])
      {
        assert nodes[..i + 1][..i] == nodes[..i];
        desired := desired.Put(Key(nodes[i]), nodes[i]);
      }
      assert nodes[..|nodes|] == nodes;
      DesiredValid(nodes);
      var removed := NoLonger(ref.keys, desired.at.Keys);
      RemovedAre(ref, desired, removed);
      diff := Update(desired, removed);
    }

    /** The registered nodes whose parent link names this element, in registry order; without an element
        those that have no parent. None is ValueError: an elementId without `!`. */
    method ChildrenOf(parentElementId: Option<string>, relationship: Option<string>)
        returns (children: Option<seq<NodeDescriptor>>)
      requires ref.Valid()
      ensures children.None? <==> parentElementId.Some? && Parse(parentElementId.value).None?
      ensures children.Some? ==>
        children.value == Filed(ref.keys, ref.at, if parentElementId.None? then None
            else Parse(parentElementId.value), relationship)
    {
      var parent: Option<ElementRef> := None;
      if parentElementId.Some? {
        parent := Parse(parentElementId.value);
        if parent.None? {
          return None;
        }
      }
      var found := SelectFiled(ref.keys, ref.at, parent, relationship);
      children := Some(found);
    }
  }

  /** The loop over the registered nodes. */
  method SelectFiled(keys: seq<string>, at: map<string, NodeDescriptor>, parent: Option<ElementRef>,
      relationship: Option<string>)
    returns (found: seq<NodeDescriptor>)
    ensures found == Filed(keys, at, parent, relationship)
  {
    found := [];
    for i := 0 to |keys|
      invariant found == Filed(keys[..i], at, parent, relationship)
    {
      assert keys[..i + 1][..i] == keys[..i];
      if keys[i] in at && IsFiled(at[keys[i]], parent, relationship) {
        found := found + [at[keys[i]]];
      }
    }
    assert keys[..|keys|] == keys;
  }

  /** The nodes filed under `parent` among these keys, in their order. */
  function Filed(keys: seq<string>, at: map<string, NodeDescriptor>, parent: Option<ElementRef>,
      relationship: Option<string>): seq<NodeDescriptor>
    decreases |keys|
  {
    if keys == [] then [] else
      var k := keys[|keys| - 1];
      Filed(keys[..|keys| - 1], at, parent, relationship) + if k in at
          && IsFiled(at[k], parent, relationship) then [at[k]] else []
  }

  lemma {:induction false} FiledExact(keys: seq<string>, at: map<string, NodeDescriptor>, parent: Option<ElementRef>,
      relationship: Option<string>)
    ensures forall n :: n in Filed(keys, at, parent, relationship)
                   <==> IsFiled(n, parent, relationship) && exists k :: k in keys && k in at && at[k] == n
    decreases |keys|
  {
    if keys != [] {
      FiledExact(keys[..|keys| - 1], at, parent, relationship);
      assert keys == keys[..|keys| - 1] + [keys[|keys| - 1]];
    }
  }

  /** In a registry those are all the nodes filed there. */
  lemma FiledAreAll(registry: Dict<NodeDescriptor>, parent: Option<ElementRef>, relationship: Option<string>)
    requires registry.Valid()
    ensures forall n :: n in Filed(registry.keys, registry.at, parent, relationship)
                   <==> n in registry.at.Values && IsFiled(n, parent, relationship)
  {
    FiledExact(registry.keys, registry.at, parent, relationship);
    assert forall k :: k in registry.at <==> k in ToSet(registry.keys);
  }

  /** `(parent_wire_node_id or parent_node_id) == parent_nid`, on the right connection and relationship. */
  predicate IsFiled(n: NodeDescriptor, parent: Option<ElementRef>, relationship: Option<string>) {
    && (if n.parentWireNodeId != "" then Some(n.parentWireNodeId) else n.parentNodeId)
         == (if parent.None? then None else Some(parent.value.nodeId))
    && (parent.Some? ==> n.connection == parent.value.connection)
    && (relationship.Some? ==> n.parentRelationship == relationship.value)
  }

  predicate IsChild(n: NodeDescriptor, parent: ElementRef, relationship: Option<string>) {
    IsFiled(n, Some(parent), relationship)
  }

  // ------------------------------------------------------------------ no node is lost

  lemma {:induction false} DesiredKeys(nodes: seq<NodeDescriptor>)
    ensures Desired(nodes).at.Keys == set n <- nodes :: Key(n)
    decreases |nodes|
  {
    if nodes != [] {
      var front, n := nodes[..|nodes| - 1], nodes[|nodes| - 1];
      DesiredKeys(front);
      assert nodes == front + [n];
    }
  }

  lemma {:induction false} DesiredHolds(nodes: seq<NodeDescriptor>, i: nat)
    requires i < |nodes| && forall j :: i < j < |nodes| ==> Key(nodes[j]) != Key(nodes[i])
    ensures Key(nodes[i]) in Desired(nodes).at && Desired(nodes).at[Key(nodes[i])] == nodes[i]
    decreases |nodes|
  {
    if i < |nodes| - 1 {
      DesiredHolds(nodes[..|nodes| - 1], i);
    }
  }

  lemma {:induction false} DesiredOnly(nodes: seq<NodeDescriptor>, k: string)
    requires k in Desired(nodes).at
    ensures Desired(nodes).at[k] in nodes && Key(Desired(nodes).at[k]) == k
    decreases |nodes|
  {
    var front, n := nodes[..|nodes| - 1], nodes[|nodes| - 1];
    if Key(n) != k {
      DesiredOnly(front, k);
    }
  }

  ghost predicate DistinctKeys(nodes: seq<NodeDescriptor>) {
    forall i, j :: 0 <= i < j < |nodes| ==> Key(nodes[i]) != Key(nodes[j])
  }

  /** Reconciling loses no node exactly when no later node takes the key of a different one. */
  lemma ReconcileKeepsAllIff(nodes: seq<NodeDescriptor>)
    requires NoRepeats(nodes)
    ensures (forall n :: n in nodes ==> n in Desired(nodes).at.Values) <==> DistinctKeys(nodes)
  {
    var all := Desired(nodes).at;
    if DistinctKeys(nodes) {
      forall n | n in nodes ensures n in all.Values {
        var i :| 0 <= i < |nodes| && nodes[i] == n;
        DesiredHolds(nodes, i);
        assert all[Key(n)] == n;
      }
    }
    if forall n :: n in nodes ==> n in all.Values {
      forall i, j | 0 <= i < j < |nodes| ensures Key(nodes[i]) != Key(nodes[j]) {
        KeptUnderOwnKey(nodes, nodes[i]);
        KeptUnderOwnKey(nodes, nodes[j]);
      }
    }
  }

  lemma KeptUnderOwnKey(nodes: seq<NodeDescriptor>, n: NodeDescriptor)
    requires n in Desired(nodes).at.Values
    ensures Key(n) in Desired(nodes).at && Desired(nodes).at[Key(n)] == n
  {
    var k :| k in Desired(nodes).at && Desired(nodes).at[k] == n;
    DesiredOnly(nodes, k);
  }

  // ------------------------------------------------------------------ children by wire id

  /** A batch of one connection, stamped: what a browse without allowlist hands over. */
  ghost predicate StampedBatch(raw: seq<NodeDescriptor>, connection: string) {
    && '!' !in connection
    && NoRepeats(Ids(raw)) && NoRepeats(Wires(raw))
    && (forall j :: 0 <= j < |raw| ==> raw[j].connection == connection && raw[j].nodeId != "")
    && (forall j :: 0 <= j < |raw| && raw[j].parentNodeId.Some? ==> LastIndex(raw, raw[j].parentNodeId.value, j).Some?)
  }

  lemma {:induction false} StampedFields(raw: seq<NodeDescriptor>, j: nat)
    requires j < |raw|
    ensures var n := StampAll(raw).out[j];
      && n.connection == raw[j].connection && n.nodeId == raw[j].nodeId && n.parentNodeId == raw[j].parentNodeId
      && n.wireNodeId == Wires(raw)[j]
      && n.parentWireNodeId == (match LastIndex(raw, raw[j].parentNodeId.GetOr(""),
          j) case None => "" case Some(k) => Wires(raw)[k])
    decreases |raw|
  {
    OutPrefix(raw, j);
    MapsRememberLast(raw, raw[j].parentNodeId.GetOr(""), j);
    assert raw[..j + 1][..j] == raw[..j];
  }

  lemma {:induction false} WireNonEmpty(raw: seq<NodeDescriptor>, j: nat)
    requires j < |raw| && forall k :: 0 <= k < |raw| ==> raw[k].nodeId != ""
    ensures Wires(raw)[j] != ""
  {
    StampingAssigns(raw);
    AssignedAt(Wants(raw), Ids(raw), j);
  }

  lemma FiledUnder(n: NodeDescriptor, connection: string, wires: seq<string>, ids: seq<string>, i: nat, k: nat)
    requires |ids| == |wires| && i < |ids| && k < |ids| && NoRepeats(ids) && NoRepeats(wires)
    requires n.connection == connection && n.parentNodeId == Some(ids[k]) && n.parentWireNodeId == wires[k]
        && wires[k] != ""
    ensures IsChild(n, ElementRef(connection, wires[i]), None) <==> n.parentNodeId == Some(ids[i])
  {
    assert k != i ==> ids[k] != ids[i] && wires[k] != wires[i];
  }

  /** A root is filed under no element at all. */
  lemma FiledNowhere(raw: seq<NodeDescriptor>, connection: string, j: nat)
    requires StampedBatch(raw, connection) && j < |raw| && raw[j].parentNodeId.None?
    ensures StampAll(raw).out[j].parentWireNodeId == "" && StampAll(raw).out[j].parentNodeId.None?
  {
    StampedFields(raw, j);
    assert LastIndex(raw, "", j).None?;
  }

  lemma FiledAtIndex(raw: seq<NodeDescriptor>, connection: string, j: nat) returns (k: nat)
    requires StampedBatch(raw, connection) && j < |raw| && raw[j].parentNodeId.Some?
    ensures var n := StampAll(raw).out[j];
      k < |raw| && n.connection == connection && n.parentNodeId == raw[j].parentNodeId == Some(Ids(raw)[k])
      && n.parentWireNodeId == Wires(raw)[k] && Wires(raw)[k] != ""
  {
    StampedFields(raw, j);
    k := LastIndex(raw, raw[j].parentNodeId.value, j).value;
    WireNonEmpty(raw, k);
  }

  /** A stamped node is filed under its parent's wire id, and under nothing else. */
  lemma FiledUnderParent(raw: seq<NodeDescriptor>, connection: string, i: nat, j: nat)
    requires StampedBatch(raw, connection) && i < |raw| && j < |raw|
    ensures IsChild(StampAll(raw).out[j], ElementRef(connection, Wires(raw)[i]), None)
       <==> raw[j].parentNodeId == Some(raw[i].nodeId)
  {
    if raw[j].parentNodeId.Some? {
      var k := FiledAtIndex(raw, connection, j);
      FiledUnder(StampAll(raw).out[j], connection, Wires(raw), Ids(raw), i, k);
    } else {
      FiledNowhere(raw, connection, j);
    }
  }

  /** `ChildrenOf` finds exactly a node's children when canonicalization leaves its wire id alone;
      otherwise it finds none of them. */
  lemma ChildrenFoundIff(raw: seq<NodeDescriptor>, connection: string, i: nat, n: NodeDescriptor)
    requires StampedBatch(raw, connection) && i < |raw| && n in StampAll(raw).out
    ensures var p := StampAll(raw).out[i];
      && Parse(Key(p)).Some?
      && (Canonicalize(p.wireNodeId) == p.wireNodeId ==>
            (IsChild(n, Parse(Key(p)).value, None) <==> n.parentNodeId == Some(p.nodeId)))
      && (n.parentNodeId == Some(p.nodeId) ==>
            (IsChild(n, Parse(Key(p)).value, None) <==> Canonicalize(p.wireNodeId) == p.wireNodeId))
  {
    var out := StampAll(raw).out;
    var j :| 0 <= j < |out| && out[j] == n;
    StampedFields(raw, i);
    StampedFields(raw, j);
    WireNonEmpty(raw, i);
    AsIdParsesIff(ElementRef(connection, out[i].wireNodeId));
    FiledUnderParent(raw, connection, i, j);
  }

  // ------------------------------------------------------------------ types

  datatype TypeDescriptor = TypeDescriptor(sourceNodeId: string, connection: string, structuralHash: string) {
    function Source(): string {
      ElementRef(connection, sourceNodeId).AsId()
    }
  }

  /** `model` stands for the class the builder makes; it counts as a plain value here. */
  datatype RegisteredType = RegisteredType(descriptor: TypeDescriptor, model: int)

  function BySource(descriptors: seq<TypeDescriptor>): map<string, string>
    decreases |descriptors|
  {
    if descriptors == [] then map[] else
      var d := descriptors[|descriptors| - 1];
      BySource(descriptors[..|descriptors| - 1])[d.Source() := d.structuralHash]
  }

  function Hashes(descriptors: seq<TypeDescriptor>): set<string> {
    set d | d in descriptors :: d.structuralHash
  }

  function Sources(descriptors: seq<TypeDescriptor>): set<string> {
    set d | d in descriptors :: d.Source()
  }

  lemma HashesAppend(front: seq<TypeDescriptor>, d: TypeDescriptor)
    ensures Hashes(front + [d]) == Hashes(front) + {d.structuralHash}
    ensures Sources(front + [d]) == Sources(front) + {d.Source()}
  {
    assert forall x :: x in front + [d] <==> x in front || x == d;
  }

  lemma {:induction false} BySourceKeys(descriptors: seq<TypeDescriptor>)
    ensures BySource(descriptors).Keys == Sources(descriptors)
    ensures BySource(descriptors).Values <= Hashes(descriptors)
    decreases |descriptors|
  {
    if descriptors != [] {
      var front, d := descriptors[..|descriptors| - 1], descriptors[|descriptors| - 1];
      BySourceKeys(front);
      assert descriptors == front + [d];
      HashesAppend(front, d);
      forall h | h in BySource(descriptors).Values ensures h in Hashes(descriptors) {
        var k :| k in BySource(descriptors) && BySource(descriptors)[k] == h;
        assert k != d.Source() ==> BySource(front)[k] in BySource(front).Values;
      }
    }
  }

  /** The first descriptor of each hash that is not known yet. */
  function NewTypes(known: set<string>, descriptors: seq<TypeDescriptor>): seq<TypeDescriptor>
    decreases |descriptors|
  {
    if descriptors == [] then [] else
      var front, d := NewTypes(known, descriptors[..|descriptors| - 1]), descriptors[|descriptors| - 1];
      if d.structuralHash in known + Hashes(front) then front else front + [d]
  }

  function Register(byHash: map<string, RegisteredType>, built: seq<TypeDescriptor>,
      build: TypeDescriptor -> int): map<string, RegisteredType>
    decreases |built|
  {
    if built == [] then byHash else
      var d := built[|built| - 1];
      Register(byHash, built[..|built| - 1], build)[d.structuralHash := RegisteredType(d, build(d))]
  }

  lemma {:induction false} NewTypesHashes(known: set<string>, descriptors: seq<TypeDescriptor>)
    ensures Hashes(NewTypes(known, descriptors)) == Hashes(descriptors) - known
    decreases |descriptors|
  {
    if descriptors != [] {
      var ds, d := descriptors[..|descriptors| - 1], descriptors[|descriptors| - 1];
      NewTypesHashes(known, ds);
      HashesAppend(NewTypes(known, ds), d);
      assert descriptors == ds + [d];
      HashesAppend(ds, d);
    }
  }

  ghost predicate DistinctHashes(types: seq<TypeDescriptor>) {
    forall j, k :: 0 <= j < k < |types| ==> types[j].structuralHash != types[k].structuralHash
  }

  lemma DistinctHashesAppend(front: seq<TypeDescriptor>, d: TypeDescriptor)
    requires DistinctHashes(front) && d.structuralHash !in Hashes(front)
    ensures DistinctHashes(front + [d])
  {
    assert forall j :: 0 <= j < |front| ==> front[j] in front && front[j].structuralHash in Hashes(front);
  }

  lemma {:induction false} NewTypesDiffer(known: set<string>, descriptors: seq<TypeDescriptor>)
    ensures DistinctHashes(NewTypes(known, descriptors))
    decreases |descriptors|
  {
    if descriptors != [] {
      var front, d := NewTypes(known, descriptors[..|descriptors| - 1]), descriptors[|descriptors| - 1];
      NewTypesDiffer(known, descriptors[..|descriptors| - 1]);
      if d.structuralHash !in known + Hashes(front) {
        DistinctHashesAppend(front, d);
      }
    }
  }

  /** Each new hash is built for once, and nothing else is. */
  lemma NewTypesExact(known: set<string>, descriptors: seq<TypeDescriptor>)
    ensures var built := NewTypes(known, descriptors);
      && Hashes(built) == Hashes(descriptors) - known
      && DistinctHashes(built)
  {
    NewTypesHashes(known, descriptors);
    NewTypesDiffer(known, descriptors);
  }

  lemma {:induction false} RegisterKeys(byHash: map<string, RegisteredType>, built: seq<TypeDescriptor>,
      build: TypeDescriptor -> int)
    ensures Register(byHash, built, build).Keys == byHash.Keys + Hashes(built)
    decreases |built|
  {
    if built != [] {
      var front, d := built[..|built| - 1], built[|built| - 1];
      RegisterKeys(byHash, front, build);
      assert built == front + [d];
      HashesAppend(front, d);
    }
  }

  lemma {:induction false} RegisterKeeps(byHash: map<string, RegisteredType>, built: seq<TypeDescriptor>,
      build: TypeDescriptor -> int, h: string)
    requires h in byHash && h !in Hashes(built)
    ensures h in Register(byHash, built, build) && Register(byHash, built, build)[h] == byHash[h]
    decreases |built|
  {
    if built != [] {
      var front, d := built[..|built| - 1], built[|built| - 1];
      assert built == front + [d];
      HashesAppend(front, d);
      RegisterKeeps(byHash, front, build, h);
    }
  }

  lemma {:induction false} RegisterBuilds(byHash: map<string, RegisteredType>, built: seq<TypeDescriptor>,
      build: TypeDescriptor -> int, k: nat)
    requires DistinctHashes(built) && k < |built|
    ensures var h := built[k].structuralHash;
      h in Register(byHash, built, build) && Register(byHash, built, build)[h]
          == RegisteredType(built[k], build(built[k]))
    decreases |built|
  {
    if k < |built| - 1 {
      RegisterBuilds(byHash, built[..|built| - 1], build, k);
    }
  }

  /** Registering new types leaves the known hashes alone and gives each new one its own model. */
  lemma RegisterExact(byHash: map<string, RegisteredType>, built: seq<TypeDescriptor>, build: TypeDescriptor -> int)
    requires DistinctHashes(built)
    requires Hashes(built) !! byHash.Keys
    ensures var after := Register(byHash, built, build);
      && after.Keys == byHash.Keys + Hashes(built)
      && (forall h :: h in byHash ==> after[h] == byHash[h])
      && (forall k :: 0 <= k < |built| ==>
            built[k].structuralHash in after && after[built[k].structuralHash]
                == RegisteredType(built[k], build(built[k])))
  {
    var after := Register(byHash, built, build);
    RegisterKeys(byHash, built, build);
    forall h | h in byHash ensures after[h] == byHash[h] {
      RegisterKeeps(byHash, built, build, h);
    }
    forall k | 0 <= k < |built|
      ensures built[k].structuralHash in after
          && after[built[k].structuralHash] == RegisteredType(built[k], build(built[k]))
    {
      RegisterBuilds(byHash, built, build, k);
    }
  }

  /** The hash map and the builder calls of the loop over the descriptors. */
  function Gather(byHash: map<string, RegisteredType>, descriptors: seq<TypeDescriptor>, build: TypeDescriptor -> int)
    : (map<string, RegisteredType>, seq<TypeDescriptor>)
    decreases |descriptors|
  {
    if descriptors == [] then (byHash, []) else
      var (types, built) := Gather(byHash, descriptors[..|descriptors| - 1], build);
      var d := descriptors[|descriptors| - 1];
      if d.structuralHash in types then (types, built) else
        (types[d.structuralHash := RegisteredType(d, build(d))], built + [d])
  }

  lemma RegisterAppend(byHash: map<string, RegisteredType>, built: seq<TypeDescriptor>, d: TypeDescriptor,
      build: TypeDescriptor -> int)
    ensures Register(byHash, built + [d], build)
        == Register(byHash, built, build)[d.structuralHash := RegisteredType(d, build(d))]
  {
    assert (built + [d])[..|built|] == built;
  }

  lemma {:induction false} GatherBuilds(byHash: map<string, RegisteredType>, descriptors: seq<TypeDescriptor>,
      build: TypeDescriptor -> int)
    ensures var (types, built) := Gather(byHash, descriptors, build);
      && built == NewTypes(byHash.Keys, descriptors)
      && types == Register(byHash, built, build)
      && types.Keys == byHash.Keys + Hashes(built)
    decreases |descriptors|
  {
    if descriptors == [] {
      assert Register(byHash, [], build) == byHash;
    } else {
      var d := descriptors[|descriptors| - 1];
      var (types, built) := Gather(byHash, descriptors[..|descriptors| - 1], build);
      GatherBuilds(byHash, descriptors[..|descriptors| - 1], build);
      if d.structuralHash !in types {
        HashesAppend(built, d);
        RegisterAppend(byHash, built, d, build);
      }
    }
  }

  function Keep(byHash: map<string, RegisteredType>, referenced: set<string>): map<string, RegisteredType> {
    map h | h in byHash && h in referenced :: byHash[h]
  }

  lemma KeepsReferred(byHash: map<string, RegisteredType>, descriptors: seq<TypeDescriptor>,
      build: TypeDescriptor -> int)
    ensures var built := NewTypes(byHash.Keys, descriptors);
      && Gather(byHash, descriptors, build) == (Register(byHash, built, build), built)
      && Keep(Register(byHash, built, build), BySource(descriptors).Values).Keys == BySource(descriptors).Values
  {
    GatherBuilds(byHash, descriptors, build);
    BySourceKeys(descriptors);
    NewTypesExact(byHash.Keys, descriptors);
  }

  /** What was known keeps its entry, what is new has the model built for it. */
  lemma EntriesKept(byHash: map<string, RegisteredType>, descriptors: seq<TypeDescriptor>, build: TypeDescriptor -> int)
    ensures var built := NewTypes(byHash.Keys, descriptors);
      var after := Register(byHash, built, build);
      && (forall h :: h in byHash && h in after ==> after[h] == byHash[h])
      && (forall k :: 0 <= k < |built| && built[k].structuralHash in after ==>
            after[built[k].structuralHash] == RegisteredType(built[k], build(built[k])))
  {
    NewTypesExact(byHash.Keys, descriptors);
    RegisterExact(byHash, NewTypes(byHash.Keys, descriptors), build);
  }

  class TypeRegistry {
    var byHash: map<string, RegisteredType>
    var bySource: map<string, string>

    constructor ()
      ensures byHash == map[] && bySource == map[]
    {
      byHash, bySource := map[], map[];
    }

    /** The loop over the descriptors. */
    method GatherTypes(descriptors: seq<TypeDescriptor>, build: TypeDescriptor -> int)
      returns (newByHash: map<string, RegisteredType>, newBySource: map<string, string>, built: seq<TypeDescriptor>)
      ensures (newByHash, built) == Gather(byHash, descriptors, build)
      ensures newBySource == BySource(descriptors)
    {
      newByHash, newBySource, built := byHash, map[], [];
      for i := 0 to |descriptors|
        invariant (newByHash, built) == Gather(byHash, descriptors[..i], build)
        invariant newBySource == BySource(descriptors[..i])
      {
        var d := descriptors[i];
        assert descriptors[..i + 1][..i] == descriptors[..i];
        newBySource := newBySource[d.Source() := d.structuralHash];
        if d.structuralHash in newByHash {
          continue;
        }
        newByHash := newByHash[d.structuralHash := RegisteredType(d, build(d))];
        built := built + [d];
      }
      assert descriptors[..|descriptors|] == descriptors;
    }

    /** The source map becomes exactly the given descriptors (the last one of a source wins), the hash map
        keeps exactly the hashes it refers to: a known hash with its entry, a new one as `Register` builds it. */
    method Reconcile(descriptors: seq<TypeDescriptor>, build: TypeDescriptor -> int)
      returns (diff: Diff, built: seq<TypeDescriptor>)
      modifies this
      ensures built == NewTypes(old(byHash.Keys), descriptors)
      ensures bySource == BySource(descriptors)
      ensures byHash == Keep(Register(old(byHash), built, build), bySource.Values)
      ensures byHash.Keys == bySource.Values
      ensures forall h :: h in old(byHash) && h in byHash ==> byHash[h] == old(byHash)[h]
      ensures forall k :: 0 <= k < |built| && built[k].structuralHash in byHash ==>
                byHash[built[k].structuralHash] == RegisteredType(built[k], build(built[k]))
      ensures diff.added !! diff.removed !! diff.kept
      ensures diff.added + diff.kept == byHash.Keys && diff.removed + diff.kept == old(byHash.Keys)
    {
      var newByHash, newBySource;
      newByHash, newBySource, built := GatherTypes(descriptors, build);
      KeepsReferred(byHash, descriptors, build);
      EntriesKept(byHash, descriptors, build);
      newByHash := Keep(newByHash, newBySource.Values);
      diff := Compare(byHash.Keys, newByHash.Keys);
      byHash, bySource := newByHash, newBySource;
    }
  }
}
