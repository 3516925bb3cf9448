/** A stamped browse in the instance registry, end to end (adapters/asyncua/browse.py, core/registry.py,
    adapters/asyncua/upstream.py). */
module StampedRegistry {
  import opened Neutral
  import opened ElementIds
  import opened WireIds
  import opened Registries
  import MonitoredTiers

  /** Each map takes back what the other did. */
  ghost predicate AreInverse(there: map<string, string>, back: map<string, string>) {
    && (forall x :: x in there ==> there[x] in back && back[there[x]] == x)
    && (forall y :: y in back ==> back[y] in there && there[back[y]] == y)
  }

  /** One connection, NodeIds as OPC UA gives them: not empty, distinct, without `#`. */
  ghost predicate OneConnection(raw: seq<NodeDescriptor>, connection: string) {
    PlainIds(Ids(raw)) && forall j :: 0 <= j < |raw| ==> raw[j].connection == connection && raw[j].nodeId != ""
  }

  ghost predicate NoMarkedPath(raw: seq<NodeDescriptor>) {
    forall i, j :: 0 <= i < |raw| && 0 <= j < |raw| ==> !EndsMarked(Paths(raw)[i], Ids(raw)[j])
  }

  lemma StampedAt(raw: seq<NodeDescriptor>, connection: string, i: nat)
    requires OneConnection(raw, connection) && i < |raw|
    ensures var n := StampAll(raw).out[i];
      n.wireNodeId == Wires(raw)[i] != "" && n.nodeId == Ids(raw)[i] && n.connection == connection
      && Key(n) == ElementRef(connection, Wires(raw)[i]).AsId()
  {
    StampedFields(raw, i);
    WireNonEmpty(raw, i);
  }

  lemma StampedKeysDiffer(raw: seq<NodeDescriptor>, connection: string)
    requires OneConnection(raw, connection) && NoRepeats(Wires(raw))
    ensures DistinctKeys(StampAll(raw).out)
  {
    var out := StampAll(raw).out;
    forall i, j | 0 <= i < j < |out| ensures Key(out[i]) != Key(out[j]) {
      StampedAt(raw, connection, i);
      StampedAt(raw, connection, j);
      assert Wires(raw)[i] != Wires(raw)[j];
      assert Key(out[i])[|connection| + 1..] == Wires(raw)[i] && Key(out[j])[|connection| + 1..] == Wires(raw)[j];
    }
  }

  /** Distinct wire ids make the index of a stamped batch and its inverse mutual inverses. */
  lemma IndexInverts(raw: seq<NodeDescriptor>, connection: string, rawByWire: map<string, string>)
    requires OneConnection(raw, connection) && NoRepeats(Wires(raw))
    requires InvertsInto(WireByRaw(StampAll(raw).out), rawByWire)
    ensures AreInverse(WireByRaw(StampAll(raw).out), rawByWire)
  {
    var out := StampAll(raw).out;
    forall i | 0 <= i < |out| ensures out[i].wireNodeId == Wires(raw)[i] != "" && Ids(out)[i] == Ids(raw)[i] {
      StampedAt(raw, connection, i);
    }
    assert Ids(out) == Ids(raw);
    DistinctRoundTrips(out, rawByWire);
    forall x | x in WireByRaw(out) ensures WireByRaw(out)[x] in rawByWire && rawByWire[WireByRaw(out)[x]] == x {
      var i := WireByRawSource(out, x);
      assert ReturnsAt(out, rawByWire, i);
      WireByRawIsStamp(out, i);
    }
  }

  // ------------------------------------------------------------------ beside other connections

  /** The nodes of other connections, in the registry's order. */
  function Others(keys: seq<string>, at: map<string, NodeDescriptor>, connection: string): seq<NodeDescriptor>
    decreases |keys|
  {
    if keys == [] then [] else
      var k := keys[|keys| - 1];
      Others(keys[..|keys| - 1], at, connection)
        + if k in at && at[k].connection != connection then [at[k]] else []
  }

  /** The instances of `apply_snapshot`: the nodes of other connections, then the new ones of this connection. */
  method ApplyInstances(registry: InstanceRegistry, connection: string, nodes: seq<NodeDescriptor>)
    returns (diff: Diff)
    requires registry.ref.Valid()
    modifies registry
    ensures registry.ref.Valid()
    ensures registry.ref.at
         == Desired(Others(old(registry.ref.keys), old(registry.ref.at), connection) + nodes).at
  {
    var retained: seq<NodeDescriptor> := [];
    var keys, at := registry.ref.keys, registry.ref.at;
    for i := 0 to |keys|
      invariant retained == Others(keys[..i], at, connection)
      invariant registry.ref == old(registry.ref)
    {
      assert keys[..i + 1][..i] == keys[..i];
      if keys[i] in at && at[keys[i]].connection != connection {
        retained := retained + [at[keys[i]]];
      }
    }
    assert keys[..|keys|] == keys;
    diff := registry.Reconcile(retained + nodes);
  }

  /** Nodes under their own keys, and no `!` in the name of a connection that stands beside another. */
  ghost predicate Beside(registry: Dict<NodeDescriptor>, connection: string) {
    registry.Valid()
    && forall k :: k in registry.at ==>
         && Key(registry.at[k]) == k
         && (registry.at[k].connection != connection ==> '!' !in registry.at[k].connection + connection)
  }

  lemma {:induction false} OthersExact(keys: seq<string>, at: map<string, NodeDescriptor>, connection: string)
    ensures forall n :: n in Others(keys, at, connection)
                   <==> n.connection != connection && exists k :: k in keys && k in at && at[k] == n
    decreases |keys|
  {
    if keys != [] {
      OthersExact(keys[..|keys| - 1], at, connection);
      assert keys == keys[..|keys| - 1] + [keys[|keys| - 1]];
    }
  }

  lemma {:induction false} OthersDiffer(keys: seq<string>, at: map<string, NodeDescriptor>, connection: string)
    requires NoRepeats(keys) && forall k :: k in at ==> Key(at[k]) == k
    ensures DistinctKeys(Others(keys, at, connection))
    decreases |keys|
  {
    if keys != [] {
      var front, k := keys[..|keys| - 1], keys[|keys| - 1];
      OthersDiffer(front, at, connection);
      OthersExact(front, at, connection);
      assert forall n :: n in Others(front, at, connection) ==> Key(n) in front;
    }
  }

  lemma OtherKeysDiffer(m: NodeDescriptor, n: NodeDescriptor)
    requires m.connection != n.connection && '!' !in m.connection && '!' !in n.connection
    ensures Key(m) != Key(n)
  {
    if Key(m) == Key(n) {
      AsIdInjective(ElementRef(m.connection, WireOrRaw(m)), ElementRef(n.connection, WireOrRaw(n)));
    }
  }

  lemma BesideKeysDiffer(others: seq<NodeDescriptor>, nodes: seq<NodeDescriptor>, connection: string)
    requires DistinctKeys(others) && DistinctKeys(nodes)
    requires forall n :: n in others ==> n.connection != connection && '!' !in n.connection + connection
    requires forall n :: n in nodes ==> n.connection == connection
    ensures DistinctKeys(others + nodes)
  {
    var all := others + nodes;
    forall i, j | 0 <= i < j < |all| ensures Key(all[i]) != Key(all[j]) {
      if i < |others| <= j {
        assert all[i] in others && all[j] in nodes;
        OtherKeysDiffer(all[i], all[j]);
      }
    }
  }

  /** A registry made of nodes with distinct keys has exactly these, each under its own. */
  lemma HoldsExactly(nodes: seq<NodeDescriptor>)
    requires DistinctKeys(nodes)
    ensures forall n :: n in Desired(nodes).at.Values <==> n in nodes
    ensures forall n :: n in nodes ==> Key(n) in Desired(nodes).at && Desired(nodes).at[Key(n)] == n
    ensures forall k :: k in Desired(nodes).at ==> Key(Desired(nodes).at[k]) == k
  {
    forall n | n in nodes ensures Key(n) in Desired(nodes).at && Desired(nodes).at[Key(n)] == n {
      var i :| 0 <= i < |nodes| && nodes[i] == n;
      DesiredHolds(nodes, i);
    }
    forall k | k in Desired(nodes).at ensures Desired(nodes).at[k] in nodes && Key(Desired(nodes).at[k]) == k {
      DesiredOnly(nodes, k);
    }
  }

  /** A snapshot of one connection replaces its nodes in the registry and keeps those of all others. */
  lemma SnapshotReplaces(was: Dict<NodeDescriptor>, connection: string, nodes: seq<NodeDescriptor>)
    requires Beside(was, connection) && DistinctKeys(nodes)
    requires forall n :: n in nodes ==> n.connection == connection
    ensures var now := Desired(Others(was.keys, was.at, connection) + nodes).at;
      && (forall n :: n in now.Values <==> n in nodes || (n in was.at.Values && n.connection != connection))
      && (forall k :: k in now ==> Key(now[k]) == k)
  {
    var others := Others(was.keys, was.at, connection);
    OthersExact(was.keys, was.at, connection);
    OthersDiffer(was.keys, was.at, connection);
    assert forall k :: k in was.at <==> k in ToSet(was.keys);
    BesideKeysDiffer(others, nodes, connection);
    HoldsExactly(others + nodes);
  }

  /** When no display path ends in `#` and a NodeId of the batch, the registry keeps every stamped node under its
      own key, beside those of other connections, and the maps between wire and raw ids invert each other. */
  lemma StampedBatchIsKept(raw: seq<NodeDescriptor>, connection: string, was: Dict<NodeDescriptor>,
                           rawByWire: map<string, string>)
    requires OneConnection(raw, connection) && NoMarkedPath(raw) && Beside(was, connection)
    requires InvertsInto(WireByRaw(StampAll(raw).out), rawByWire)
    ensures var out := StampAll(raw).out;
      var now := Desired(Others(was.keys, was.at, connection) + out).at;
      && DistinctKeys(out)
      && (forall n :: n in out || (n in was.at.Values && n.connection != connection) ==>
            Key(n) in now && now[Key(n)] == n)
      && (forall k :: k in now ==> now[k] in out || (now[k] in was.at.Values && now[k].connection != connection))
      && AreInverse(WireByRaw(out), rawByWire)
  {
    var out := StampAll(raw).out;
    DistinctWithoutMarkedPaths(raw);
    StampedKeysDiffer(raw, connection);
    IndexInverts(raw, connection, rawByWire);
    forall n | n in out ensures n.connection == connection {
      var i :| 0 <= i < |out| && out[i] == n;
      StampedAt(raw, connection, i);
    }
    SnapshotReplaces(was, connection, out);
    var now := Desired(Others(was.keys, was.at, connection) + out).at;
    forall k | k in now ensures now[k] in now.Values {
    }
    forall n | n in now.Values ensures Key(n) in now && now[Key(n)] == n {
      var k :| k in now && now[k] == n;
    }
  }

  lemma LaterTakesKey(raw: seq<NodeDescriptor>, connection: string, others: seq<NodeDescriptor>, i: nat, j: nat)
    requires OneConnection(raw, connection) && i < j < |raw| && Wires(raw)[i] == Wires(raw)[j]
    ensures var now := Desired(others + StampAll(raw).out).at;
      StampAll(raw).out[i] !in now.Values || StampAll(raw).out[j] !in now.Values
  {
    var out := StampAll(raw).out;
    StampedAt(raw, connection, i);
    StampedAt(raw, connection, j);
    assert Ids(raw)[i] != Ids(raw)[j];
    if out[i] in Desired(others + out).at.Values && out[j] in Desired(others + out).at.Values {
      KeptUnderOwnKey(others + out, out[i]);
      KeptUnderOwnKey(others + out, out[j]);
      assert false;
    }
  }

  /** The registry keeps every node of a stamped batch exactly when the wire ids differ. */
  lemma StampedKeptIff(raw: seq<NodeDescriptor>, connection: string, was: Dict<NodeDescriptor>)
    requires OneConnection(raw, connection) && Beside(was, connection)
    ensures var now := Desired(Others(was.keys, was.at, connection) + StampAll(raw).out).at;
      (forall n :: n in StampAll(raw).out ==> n in now.Values) <==> NoRepeats(Wires(raw))
  {
    var out := StampAll(raw).out;
    if NoRepeats(Wires(raw)) {
      StampedKeysDiffer(raw, connection);
      forall n | n in out ensures n.connection == connection {
        var i :| 0 <= i < |out| && out[i] == n;
        StampedAt(raw, connection, i);
      }
      SnapshotReplaces(was, connection, out);
    } else {
      var i, j :| 0 <= i < j < |raw| && Wires(raw)[i] == Wires(raw)[j];
      LaterTakesKey(raw, connection, Others(was.keys, was.at, connection), i, j);
      assert out[i] in out && out[j] in out;
    }
  }

  /** So of the three nodes that clash one is not in the registry. */
  lemma ClashLosesNode() returns (raw: seq<NodeDescriptor>, n: NodeDescriptor)
    ensures PlainIds(Ids(raw)) && n in StampAll(raw).out && n !in Desired(StampAll(raw).out).at.Values
  {
    raw := ClashExample();
    StampedKeptIff(raw, "c", EMPTY);
    assert Others([], map[], "c") + StampAll(raw).out == StampAll(raw).out;
    n :| n in StampAll(raw).out && n !in Desired(StampAll(raw).out).at.Values;
  }

  // ------------------------------------------------------------------ children

  lemma RegistryHoldsBatch(raw: seq<NodeDescriptor>, connection: string, was: Dict<NodeDescriptor>)
    requires StampedBatch(raw, connection) && Beside(was, connection)
    ensures var out := StampAll(raw).out;
      forall n :: n in Desired(Others(was.keys, was.at, connection) + out).at.Values
             <==> n in out || (n in was.at.Values && n.connection != connection)
  {
    var out := StampAll(raw).out;
    forall i | 0 <= i < |out| ensures out[i].connection == connection
                                    && Key(out[i]) == ElementRef(connection, Wires(raw)[i]).AsId() {
      StampedFields(raw, i);
      WireNonEmpty(raw, i);
    }
    forall i, j | 0 <= i < j < |out| ensures Key(out[i]) != Key(out[j]) {
      assert Key(out[i])[|connection| + 1..] == Wires(raw)[i] && Key(out[j])[|connection| + 1..] == Wires(raw)[j];
    }
    SnapshotReplaces(was, connection, out);
  }

  /** After a stamped batch has entered the registry beside other connections, the nodes filed under a node's
      elementId are exactly its children, by the relationship asked for if one is, when canonicalization leaves its
      wire id alone; otherwise none of its children is among them. */
  lemma ChildrenAfterReconcile(raw: seq<NodeDescriptor>, connection: string, was: Dict<NodeDescriptor>,
                               registry: Dict<NodeDescriptor>, relationship: Option<string>, i: nat)
    requires StampedBatch(raw, connection) && i < |raw| && Beside(was, connection) && registry.Valid()
    requires registry.at == Desired(Others(was.keys, was.at, connection) + StampAll(raw).out).at
    ensures var out := StampAll(raw).out;
      var found := Filed(registry.keys, registry.at, Parse(Key(out[i])), relationship);
      if Canonicalize(out[i].wireNodeId) == out[i].wireNodeId
      then forall n :: n in found <==> n in out && n.parentNodeId == Some(raw[i].nodeId)
                                       && (relationship.Some? ==> n.parentRelationship == relationship.value)
      else forall n :: n in out && n.parentNodeId == Some(raw[i].nodeId) ==> n !in found
  {
    var out := StampAll(raw).out;
    var parent := Parse(Key(out[i]));
    StampedFields(raw, i);
    WireNonEmpty(raw, i);
    AsIdParsesIff(ElementRef(connection, out[i].wireNodeId));
    FiledAreAll(registry, parent, relationship);
    RegistryHoldsBatch(raw, connection, was);
    forall n | n in out
      ensures Canonicalize(out[i].wireNodeId) == out[i].wireNodeId ==>
          (IsFiled(n, parent, None) <==> n.parentNodeId == Some(raw[i].nodeId))
      ensures n.parentNodeId == Some(raw[i].nodeId) ==>
          (IsFiled(n, parent, None) <==> Canonicalize(out[i].wireNodeId) == out[i].wireNodeId)
    {
      ChildrenFoundIff(raw, connection, i, n);
    }
    forall n ensures IsFiled(n, parent, relationship)
                <==> IsFiled(n, parent, None) && (relationship.Some? ==> n.parentRelationship == relationship.value) {
    }
  }

  /** The browse root by default is the Objects folder, written with its namespace index. */
  const DEFAULT_ROOT := "ns=0;i=85"

  lemma DefaultRootIsNotCanonical()
    ensures Canonicalize(DEFAULT_ROOT) == "i=85" && Canonicalize(DEFAULT_ROOT) != DEFAULT_ROOT
  {
    CanonicalizeDropsZero("i=85");
    assert "ns=0;" + "i=85" == DEFAULT_ROOT;
    assert |"i=85"| == 4 && |DEFAULT_ROOT| == 9;
  }

  /** The first root keeps its NodeId for a wire id. */
  lemma FirstRootKeepsId(raw: seq<NodeDescriptor>)
    requires |raw| > 0 && raw[0].parentNodeId.None?
    ensures StampAll(raw).out[0].wireNodeId == raw[0].nodeId
  {
    OutPrefix(raw, 0);
    assert raw[..1][..0] == [];
  }

  /** Its wire id is its NodeId, which canonicalizes to another, so no child of the default root is ever found. */
  lemma DefaultRootFindsNoChild(raw: seq<NodeDescriptor>, connection: string, was: Dict<NodeDescriptor>,
                                registry: Dict<NodeDescriptor>)
    requires StampedBatch(raw, connection) && |raw| > 0 && Beside(was, connection) && registry.Valid()
    requires raw[0].nodeId == DEFAULT_ROOT && raw[0].parentNodeId.None?
    requires registry.at == Desired(Others(was.keys, was.at, connection) + StampAll(raw).out).at
    ensures forall n :: n in StampAll(raw).out && n.parentNodeId == Some(DEFAULT_ROOT) ==>
              n !in Filed(registry.keys, registry.at, Parse(Key(StampAll(raw).out[0])), None)
  {
    FirstRootKeepsId(raw);
    DefaultRootIsNotCanonical();
    ChildrenAfterReconcile(raw, connection, was, registry, None, 0);
  }

  // ------------------------------------------------------------------ a path that keeps an empty name

  /** A root, a named node below it and an unnamed one below that: the path ends in a dot. */
  lemma UnnamedNodeKeepsDot(root: NodeDescriptor, a: NodeDescriptor, u: NodeDescriptor)
    requires root.parentNodeId.None? && a.parentNodeId == Some(root.nodeId) && u.parentNodeId == Some(a.nodeId)
    requires NoRepeats([root.nodeId, a.nodeId, u.nodeId]) && a.displayName != "" && u.displayName == ""
    ensures Paths([root, a, u])[2] == a.displayName + "."
    ensures DotJoin(NonEmpty(Names([root, a, u], 2))) == a.displayName
  {
    var nodes := [root, a, u];
    assert [root.nodeId, a.nodeId, u.nodeId][0] != [root.nodeId, a.nodeId, u.nodeId][1];
    assert nodes[0] == root && nodes[1] == a && nodes[2] == u;
    assert LastIndex(nodes, a.nodeId, 2) == Some(1) && LastIndex(nodes, root.nodeId, 1) == Some(0);
    assert Names(nodes, 0) == [] && Names(nodes, 1) == [a.displayName];
    var names := [a.displayName, ""];
    assert Names(nodes, 2) == names;
    PathIsJoin(nodes, 2);
    assert names[..1] == [a.displayName] && names[1..] == [""] && [""][1..] == [];
    assert DotJoin(names) == a.displayName + "." + "";
    assert NonEmpty(names) == [a.displayName];
  }

  // ------------------------------------------------------------------ what a binding monitors

  /** With the index made from a stamped batch, a tier that serves what is wanted monitors exactly the NodeIds of the
      nodes whose wire ids are wanted, and any wanted id that is no wire id. */
  lemma ServedAreNodes(raw: seq<NodeDescriptor>, connection: string, t: MonitoredTiers.Tiers, pub: int,
                       wanted: set<string>, x: string)
    requires OneConnection(raw, connection) && NoRepeats(Wires(raw))
    requires InvertsInto(WireByRaw(StampAll(raw).out), t.rawByWire) && MonitoredTiers.Serves(t, pub, wanted)
    ensures (pub in t.monitored && x in t.monitored[pub]) <==>
      || (exists i :: 0 <= i < |raw| && Wires(raw)[i] in wanted && x == Ids(raw)[i])
      || (x in wanted && forall i :: 0 <= i < |raw| ==> Wires(raw)[i] != x)
  {
    var out, index := StampAll(raw).out, t.rawByWire;
    forall i | 0 <= i < |raw| ensures Wires(raw)[i] in index && index[Wires(raw)[i]] == Ids(raw)[i] {
      WireMeansNode(raw, connection, index, i);
    }
    forall w | w in index ensures w in Wires(raw) {
      IndexedIsWire(raw, connection, index, w);
      var i :| 0 <= i < |raw| && out[i].wireNodeId == w;
      assert Wires(raw)[i] == w;
    }
    MeantByIndex(Wires(raw), Ids(raw), index, wanted, x);
    assert MonitoredTiers.Monitors(t, pub, x) <==> exists w :: w in wanted && MonitoredTiers.Means(index, w, x);
  }

  lemma MeantByIndex(wires: seq<string>, ids: seq<string>, index: map<string, string>, wanted: set<string>, x: string)
    requires |wires| == |ids| && (forall i :: 0 <= i < |ids| ==> wires[i] in index && index[wires[i]] == ids[i])
    requires forall w :: w in index ==> w in wires
    ensures (exists w :: w in wanted && MonitoredTiers.Means(index, w, x)) <==>
      || (exists i :: 0 <= i < |ids| && wires[i] in wanted && x == ids[i])
      || (x in wanted && forall i :: 0 <= i < |ids| ==> wires[i] != x)
  {
    if w :| w in wanted && MonitoredTiers.Means(index, w, x) {
      if w in index {
        var i :| 0 <= i < |wires| && wires[i] == w;
      }
    }
    if i :| 0 <= i < |ids| && wires[i] in wanted && x == ids[i] {
      assert MonitoredTiers.Means(index, wires[i], x);
    }
    if x in wanted && forall i :: 0 <= i < |ids| ==> wires[i] != x {
      assert MonitoredTiers.Means(index, x, x);
    }
  }

  lemma WireMeansNode(raw: seq<NodeDescriptor>, connection: string, rawByWire: map<string, string>, i: nat)
    requires OneConnection(raw, connection) && NoRepeats(Wires(raw)) && i < |raw|
    requires InvertsInto(WireByRaw(StampAll(raw).out), rawByWire)
    ensures var w := StampAll(raw).out[i].wireNodeId; w in rawByWire && rawByWire[w] == raw[i].nodeId
  {
    var out := StampAll(raw).out;
    forall j | 0 <= j < |out| ensures out[j].wireNodeId == Wires(raw)[j] != "" && Ids(out)[j] == Ids(raw)[j] {
      StampedAt(raw, connection, j);
    }
    assert Ids(out) == Ids(raw);
    DistinctRoundTrips(out, rawByWire);
    assert ReturnsAt(out, rawByWire, i) && out[i].nodeId == Ids(raw)[i];
  }

  lemma IndexedIsWire(raw: seq<NodeDescriptor>, connection: string, rawByWire: map<string, string>, w: string)
    requires OneConnection(raw, connection) && NoRepeats(Wires(raw)) && w in rawByWire
    requires InvertsInto(WireByRaw(StampAll(raw).out), rawByWire)
    ensures exists i :: 0 <= i < |raw| && StampAll(raw).out[i].wireNodeId == w
  {
    var out := StampAll(raw).out;
    var i := WireByRawSource(out, rawByWire[w]);
    forall j | 0 <= j < |out| ensures out[j].wireNodeId != "" && Ids(out)[j] == Ids(raw)[j] {
      StampedAt(raw, connection, j);
    }
    assert Ids(out) == Ids(raw);
    WireByRawIsStamp(out, i);
  }
}
