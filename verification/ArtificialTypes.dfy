/** Synthetic types for generic Variables, collected when browsing (core/artificial_types.py,
    adapters/asyncua/browse.py) and named when an instance is read (api/routes/objects.py, core/mapping.py). */
module ArtificialTypes {
  import opened Neutral
  import opened ElementIds
  import opened Registries
  import WireIds

  // ------------------------------------------------------------------ shapes and names

  /** (DataType, Rank, Access). */
  type Shape = (string, string, string)

  /** The names of the built-in DataTypes; None for any other. */
  type DataTypeNames = string -> Option<string>

  /** `s.replace("!", "-")`. */
  function Plain(s: string): (plain: string)
    ensures |plain| == |s|
    ensures forall i :: 0 <= i < |s| ==> plain[i] == if s[i] == '!' then '-' else s[i]
  {
    if s == "" then "" else [if s[0] == '!' then '-' else s[0]] + Plain(s[1..])
  }

  /** The NodeId without `=`, its `;` and `:` as `_`. */
  function Label(nodeId: string): (text: string)
    ensures '=' !in text && ';' !in text && ':' !in text
  {
    if nodeId == "" then ""
    else if nodeId[0] == '=' then Label(nodeId[1..])
    else [if nodeId[0] == ';' || nodeId[0] == ':' then '_' else nodeId[0]] + Label(nodeId[1..])
  }

  function RankOf(valueRank: int): string {
    if valueRank == -1 then "Scalar" else if valueRank == 0 then "AnyDim" else if valueRank == 1 then "Array"
        else "Multi"
  }

  /** From the lowest two bits of the access level. */
  function AccessOf(accessLevel: int): string {
    var read, write := accessLevel % 2 == 1, accessLevel / 2 % 2 == 1;
    if read && write then "RW" else if read then "RO" else if write then "WO" else "NONE"
  }

  function DeriveShape(names: DataTypeNames, dataType: string, valueRank: int, accessLevel: int,
      given: Option<string>): Shape {
    var name :=
      if given.Some? && given.value != "" then given.value
      else match names(dataType)
           case Some(known) => known
           case None => "Custom_" + Label(dataType);
    (name, RankOf(valueRank), AccessOf(accessLevel))
  }

  function TypeName(shape: Shape): string {
    shape.0 + "_" + shape.1 + "_" + shape.2
  }

  lemma LastUnderscore(a: string, x: string)
    requires '_' !in x
    ensures (a + "_" + x)[|a|] == '_' && (a + "_" + x)[..|a|] == a && (a + "_" + x)[|a| + 1..] == x
    ensures forall i :: |a| < i < |a + "_" + x| ==> (a + "_" + x)[i] != '_'
  {
    forall i | |a| < i < |a + "_" + x| ensures (a + "_" + x)[i] != '_' {
      assert (a + "_" + x)[i] == x[i - |a| - 1];
    }
  }

  /** A text is cut at its last underscore in one way. */
  lemma CutAtLast(a: string, x: string, b: string, y: string)
    requires a + "_" + x == b + "_" + y && '_' !in x && '_' !in y
    ensures a == b && x == y
  {
    LastUnderscore(a, x);
    LastUnderscore(b, y);
  }

  /** Two shapes share a name only if they are the same, whatever underscores the DataType name has. */
  lemma TypeNameInjective(names: DataTypeNames, d: string, r: int, a: int, g: Option<string>, d': string, r': int,
      a': int, g': Option<string>)
    requires TypeName(DeriveShape(names, d, r, a, g)) == TypeName(DeriveShape(names, d', r', a', g'))
    ensures DeriveShape(names, d, r, a, g) == DeriveShape(names, d', r', a', g')
  {
    var s, t := DeriveShape(names, d, r, a, g), DeriveShape(names, d', r', a', g');
    assert TypeName(s) == (s.0 + "_" + s.1) + "_" + s.2 && TypeName(t) == (t.0 + "_" + t.1) + "_" + t.2;
    CutAtLast(s.0 + "_" + s.1, s.2, t.0 + "_" + t.1, t.2);
    CutAtLast(s.0, s.1, t.0, t.1);
  }

  // ------------------------------------------------------------------ when a Variable is swapped

  /** BaseDataVariableType. */
  const GENERIC_VARIABLE_TYPE := "i=63"

  /** BaseObjectType and FolderType. */
  const GENERIC_PARENT_TYPES := {"i=58", "i=61"}

  predicate HasMeaning(parentType: Option<string>) {
    parentType.Some? && parentType.value !in GENERIC_PARENT_TYPES
  }

  /** A generic Variable whose attributes make a shape. */
  predicate Shapely(n: NodeDescriptor) {
    && n.nodeClass.Variable? && n.typeSourceId == Some(GENERIC_VARIABLE_TYPE)
    && n.dataTypeNodeId.Some? && n.valueRank.Some? && n.accessLevel.Some?
  }

  function ShapeOf(names: DataTypeNames, n: NodeDescriptor): Shape
    requires Shapely(n)
  {
    DeriveShape(names, n.dataTypeNodeId.value, n.valueRank.value, n.accessLevel.value, n.dataTypeName)
  }

  /** `_eligible_for_artificial`; a parent missing from the dictionary counts as one without a type. */
  predicate Eligible(n: NodeDescriptor, parentTypes: map<string, Option<string>>) {
    && Shapely(n)
    && (n.parentNodeId.None? || n.parentNodeId.value !in parentTypes || !HasMeaning(parentTypes[n.parentNodeId.value]))
  }

  // ------------------------------------------------------------------ collecting the types

  /** A collected type: its descriptor, the namespace, and the DataType and rank its schema is made from. */
  datatype Artificial = Artificial(descriptor: TypeDescriptor, namespaceUri: string, dataType: string, valueRank: int)

  function Describe(names: DataTypeNames, n: NodeDescriptor): Artificial
    requires Shapely(n)
  {
    var name := TypeName(ShapeOf(names, n));
    Artificial(TypeDescriptor(name, n.connection, "artificial:" + n.connection + ":" + name),
               n.namespaceUri, n.dataTypeNodeId.value, n.valueRank.value)
  }

  /** Eligible, and no eligible node before it on the same connection has the same shape. */
  ghost predicate FirstOfShape(names: DataTypeNames, nodes: seq<NodeDescriptor>,
      parentTypes: map<string, Option<string>>, i: nat)
    requires i < |nodes|
  {
    && Eligible(nodes[i], parentTypes)
    && forall j :: 0 <= j < i && Eligible(nodes[j], parentTypes) && nodes[j].connection == nodes[i].connection
         ==> ShapeOf(names, nodes[j]) != ShapeOf(names, nodes[i])
  }

  /** One type for the first Variable of each shape, in order. */
  ghost function Firsts(names: DataTypeNames, nodes: seq<NodeDescriptor>, parentTypes: map<string, Option<string>>,
      n: nat): seq<Artificial>
    requires n <= |nodes|
  {
    if n == 0 then []
    else if FirstOfShape(names, nodes, parentTypes, n - 1) then Firsts(names, nodes, parentTypes, n - 1)
        + [Describe(names, nodes[n - 1])]
    else Firsts(names, nodes, parentTypes, n - 1)
  }

  method CollectArtificialTypes(names: DataTypeNames, nodes: seq<NodeDescriptor>,
      parentTypes: map<string, Option<string>>)
    returns (out: seq<Artificial>)
    ensures out == Firsts(names, nodes, parentTypes, |nodes|)
  {
    out := [];
    var seen: set<(string, Shape)> := {};
    for i := 0 to |nodes|
      invariant out == Firsts(names, nodes, parentTypes, i)
      invariant forall key :: key in seen <==>
                  exists j :: 0 <= j < i && Eligible(nodes[j], parentTypes)
                      && key == (nodes[j].connection, ShapeOf(names, nodes[j]))
    {
      if Eligible(nodes[i], parentTypes) {
        var key := (nodes[i].connection, ShapeOf(names, nodes[i]));
        if key !in seen {
          seen := seen + {key};
          out := out + [Describe(names, nodes[i])];
        }
      }
    }
  }

  predicate Names(t: Artificial, connection: string, name: string) {
    t.descriptor.connection == connection && t.descriptor.sourceNodeId == name
  }

  /** Every eligible Variable has its type among those collected. */
  lemma {:induction false} EligibleIsCollected(names: DataTypeNames, nodes: seq<NodeDescriptor>,
      parentTypes: map<string, Option<string>>, n: nat, i: nat)
    returns (k: nat)
    requires i < n <= |nodes| && Eligible(nodes[i], parentTypes)
    ensures k < |Firsts(names, nodes, parentTypes, n)|
    ensures Names(Firsts(names, nodes, parentTypes, n)[k], nodes[i].connection, TypeName(ShapeOf(names, nodes[i])))
    decreases n
  {
    if i < n - 1 {
      k := EligibleIsCollected(names, nodes, parentTypes, n - 1, i);
    } else if FirstOfShape(names, nodes, parentTypes, i) {
      k := |Firsts(names, nodes, parentTypes, n - 1)|;
    } else {
      var j :| 0 <= j < i && Eligible(nodes[j], parentTypes) && nodes[j].connection == nodes[i].connection
               && ShapeOf(names, nodes[j]) == ShapeOf(names, nodes[i]);
      k := EligibleIsCollected(names, nodes, parentTypes, n - 1, j);
    }
  }

  /** Every type collected is that of an eligible Variable. */
  lemma {:induction false} CollectedIsDescribed(names: DataTypeNames, nodes: seq<NodeDescriptor>,
      parentTypes: map<string, Option<string>>, n: nat, k: nat)
    returns (i: nat)
    requires n <= |nodes| && k < |Firsts(names, nodes, parentTypes, n)|
    ensures i < n && Eligible(nodes[i], parentTypes)
        && Firsts(names, nodes, parentTypes, n)[k] == Describe(names, nodes[i])
    decreases n
  {
    if k < |Firsts(names, nodes, parentTypes, n - 1)| {
      i := CollectedIsDescribed(names, nodes, parentTypes, n - 1, k);
    } else {
      i := n - 1;
    }
  }

  /** No two types collected have the same connection and name. */
  lemma {:induction false} CollectedDiffer(names: DataTypeNames, nodes: seq<NodeDescriptor>,
      parentTypes: map<string, Option<string>>, n: nat, j: nat, k: nat)
    requires n <= |nodes| && j < k < |Firsts(names, nodes, parentTypes, n)|
    ensures Firsts(names, nodes, parentTypes, n)[j].descriptor != Firsts(names, nodes, parentTypes, n)[k].descriptor
    decreases n
  {
    if k < |Firsts(names, nodes, parentTypes, n - 1)| {
      CollectedDiffer(names, nodes, parentTypes, n - 1, j, k);
    } else {
      var i := CollectedIsDescribed(names, nodes, parentTypes, n - 1, j);
      SameNameSameShape(names, nodes[i], nodes[n - 1]);
    }
  }

  lemma SameNameSameShape(names: DataTypeNames, m: NodeDescriptor, n: NodeDescriptor)
    requires Shapely(m) && Shapely(n)
    ensures TypeName(ShapeOf(names, m)) == TypeName(ShapeOf(names, n)) ==> ShapeOf(names, m) == ShapeOf(names, n)
  {
    if TypeName(ShapeOf(names, m)) == TypeName(ShapeOf(names, n)) {
      TypeNameInjective(names, m.dataTypeNodeId.value, m.valueRank.value, m.accessLevel.value, m.dataTypeName,
                        n.dataTypeNodeId.value, n.valueRank.value, n.accessLevel.value, n.dataTypeName);
    }
  }

  // ------------------------------------------------------------------ naming the type of an instance

  /** {node_id: type_source_id} of one browse. */
  function ParentTypes(nodes: seq<NodeDescriptor>): map<string, Option<string>>
    decreases |nodes|
  {
    if nodes == [] then map[] else
      ParentTypes(nodes[..|nodes| - 1])[nodes[|nodes| - 1].nodeId := nodes[|nodes| - 1].typeSourceId]
  }

  function PlainOption(s: Option<string>): Option<string> {
    if s.None? then None else Some(Plain(s.value))
  }

  /** The last pass of `browse`, which frees ids and names of the separator. */
  function PlainNode(n: NodeDescriptor): NodeDescriptor {
    n.(nodeId := Plain(n.nodeId), displayName := Plain(n.displayName), namespaceUri := Plain(n.namespaceUri),
       parentNodeId := PlainOption(n.parentNodeId), typeSourceId := PlainOption(n.typeSourceId))
  }

  function Published(nodes: seq<NodeDescriptor>): seq<NodeDescriptor> {
    seq(|nodes|, i requires 0 <= i < |nodes| => PlainNode(nodes[i]))
  }

  /** The parent's type as `_build_instance` finds it in the registry. */
  function ReadParentType(registry: Dict<NodeDescriptor>, n: NodeDescriptor): Option<string> {
    if n.parentNodeId.None? then None else
      var parent := ElementRef(n.connection, n.parentNodeId.value).AsId();
      if parent in registry.at then registry.at[parent].typeSourceId else None
  }

  predicate Swapped(registry: Dict<NodeDescriptor>, n: NodeDescriptor) {
    Shapely(n) && !HasMeaning(ReadParentType(registry, n))
  }

  /** The instance's typeElementId; `displayNames` are those of the registered types, by source. */
  function TypeElementId(names: DataTypeNames, registry: Dict<NodeDescriptor>, displayNames: map<string, string>,
      n: NodeDescriptor): string {
    var segment :=
      if Swapped(registry, n) then TypeName(ShapeOf(names, n))
      else match n.typeSourceId
           case None => "UnknownType"
           case Some(source) => if source in displayNames then displayNames[source] else source;
    ElementRef(n.connection, segment).AsId()
  }

  /** The elementId a collected type is registered under. */
  function RegisteredId(t: Artificial): string {
    ElementRef(t.descriptor.connection, Plain(t.descriptor.sourceNodeId)).AsId()
  }

  // ------------------------------------------------------------------ do the two decisions agree?

  predicate HasNoMark(s: Option<string>) {
    s.Some? ==> '!' !in s.value
  }

  /** The nodes of one browse of one connection: distinct NodeIds and elementIds, no `!` in an id, and no
      display path that spells the NodeId of somebody's parent. */
  ghost predicate OneBrowse(nodes: seq<NodeDescriptor>, connection: string) {
    && '!' !in connection
    && (forall i :: 0 <= i < |nodes| ==>
          nodes[i].connection == connection && '!' !in nodes[i].nodeId && HasNoMark(nodes[i].parentNodeId)
              && HasNoMark(nodes[i].typeSourceId))
    && (forall i, j :: 0 <= i < j < |nodes| ==> nodes[i].nodeId != nodes[j].nodeId)
    && DistinctKeys(nodes)
    && (forall i, j :: 0 <= i < |nodes| && 0 <= j < |nodes| && nodes[i].parentNodeId == Some(WireOrRaw(nodes[j]))
          ==> nodes[j].nodeId == WireOrRaw(nodes[j]))
  }

  /** Node `k` is the parent of node `i`, has a type of its own, and is registered under another id than its NodeId. */
  ghost predicate HiddenAs(nodes: seq<NodeDescriptor>, i: nat, k: nat)
    requires i < |nodes|
  {
    && k < |nodes| && nodes[i].parentNodeId == Some(nodes[k].nodeId)
    && HasMeaning(nodes[k].typeSourceId) && WireOrRaw(nodes[k]) != nodes[k].nodeId
  }

  ghost predicate HiddenParent(nodes: seq<NodeDescriptor>, i: nat)
    requires i < |nodes|
  {
    exists k: nat :: HiddenAs(nodes, i, k)
  }

  lemma {:induction false} PlainIsSame(s: string)
    requires '!' !in s
    ensures Plain(s) == s
  {
  }

  lemma PlainNodeSame(nodes: seq<NodeDescriptor>, connection: string, i: nat)
    requires OneBrowse(nodes, connection) && i < |nodes|
    ensures var n, m := nodes[i], PlainNode(nodes[i]);
      && m.nodeId == n.nodeId && m.parentNodeId == n.parentNodeId && m.typeSourceId == n.typeSourceId
      && WireOrRaw(m) == WireOrRaw(n) && Key(m) == Key(n)
      && (Shapely(m) <==> Shapely(n))
  {
    PlainIsSame(nodes[i].nodeId);
    if nodes[i].parentNodeId.Some? {
      PlainIsSame(nodes[i].parentNodeId.value);
    }
    if nodes[i].typeSourceId.Some? {
      PlainIsSame(nodes[i].typeSourceId.value);
    }
  }

  /** The browse finds a parent by its NodeId. */
  lemma {:induction false} ParentTypesExact(nodes: seq<NodeDescriptor>, id: string)
    requires forall i, j :: 0 <= i < j < |nodes| ==> nodes[i].nodeId != nodes[j].nodeId
    ensures id in ParentTypes(nodes) <==> exists k :: 0 <= k < |nodes| && nodes[k].nodeId == id
    ensures forall k :: 0 <= k < |nodes| && nodes[k].nodeId == id ==> ParentTypes(nodes)[id] == nodes[k].typeSourceId
    decreases |nodes|
  {
    if nodes != [] {
      ParentTypesExact(nodes[..|nodes| - 1], id);
    }
  }

  /** The registry files node `k` under its wire id, and nothing under an id that is nobody's wire id. */
  lemma RegistryLookup(nodes: seq<NodeDescriptor>, connection: string, id: string)
    requires OneBrowse(nodes, connection)
    ensures var registry, key := Desired(Published(nodes)), ElementRef(connection, id).AsId();
      && (key in registry.at <==> exists k :: 0 <= k < |nodes| && WireOrRaw(nodes[k]) == id)
      && (forall k :: 0 <= k < |nodes| && WireOrRaw(nodes[k]) == id ==>
          registry.at[key].typeSourceId == nodes[k].typeSourceId)
  {
    var published, key := Published(nodes), ElementRef(connection, id).AsId();
    forall i | 0 <= i < |nodes| ensures Key(published[i]) == Key(nodes[i]) {
      PlainNodeSame(nodes, connection, i);
    }
    assert DistinctKeys(published);
    forall k | 0 <= k < |nodes| && WireOrRaw(nodes[k]) == id
      ensures key in Desired(published).at && Desired(published).at[key].typeSourceId == nodes[k].typeSourceId
    {
      PlainNodeSame(nodes, connection, k);
      DesiredHolds(published, k);
    }
    if key in Desired(published).at {
      DesiredOnly(published, key);
      var k :| 0 <= k < |published| && published[k] == Desired(published).at[key];
      assert Key(nodes[k]) == key && key[|connection| + 1..] == id == WireOrRaw(nodes[k]);
    }
  }

  /** Browsing and reading decide alike about a generic Variable exactly when its parent is not a typed node
      registered under another id than its NodeId. */
  lemma DecisionsAgreeIff(nodes: seq<NodeDescriptor>, connection: string, i: nat)
    requires OneBrowse(nodes, connection) && i < |nodes| && Shapely(nodes[i])
    ensures (Eligible(nodes[i], ParentTypes(nodes)) <==> Swapped(Desired(Published(nodes)), PlainNode(nodes[i])))
       <==> !HiddenParent(nodes, i)
    ensures HiddenParent(nodes, i) ==> Swapped(Desired(Published(nodes)), PlainNode(nodes[i]))
  {
    PlainNodeSame(nodes, connection, i);
    if nodes[i].parentNodeId.Some? {
      var p := nodes[i].parentNodeId.value;
      ParentTypesExact(nodes, p);
      RegistryLookup(nodes, connection, p);
      if k: nat :| k < |nodes| && nodes[k].nodeId == p {
        assert HiddenAs(nodes, i, k) <==> HasMeaning(nodes[k].typeSourceId) && WireOrRaw(nodes[k]) != p;
        assert forall j: nat :: HiddenAs(nodes, i, j) ==> j == k;
        assert forall j :: 0 <= j < |nodes| && WireOrRaw(nodes[j]) == p ==> j == k;
      } else {
        assert forall j: nat :: !HiddenAs(nodes, i, j);
      }
    }
  }

  /** Unless its parent is hidden, a swapped instance names a registered type exactly when the name has no `!`. */
  lemma SwappedIsRegisteredIff(names: DataTypeNames, nodes: seq<NodeDescriptor>, connection: string,
      displayNames: map<string, string>, i: nat)
    requires OneBrowse(nodes, connection) && i < |nodes| && !HiddenParent(nodes, i)
    requires Swapped(Desired(Published(nodes)), PlainNode(nodes[i]))
    ensures IsRegistered(TypeElementId(names, Desired(Published(nodes)), displayNames, PlainNode(nodes[i])),
                         Firsts(names, nodes, ParentTypes(nodes), |nodes|))
       <==> '!' !in TypeName(ShapeOf(names, PlainNode(nodes[i])))
  {
    var types := Firsts(names, nodes, ParentTypes(nodes), |nodes|);
    PlainNodeSame(nodes, connection, i);
    DecisionsAgreeIff(nodes, connection, i);
    var k := EligibleIsCollected(names, nodes, ParentTypes(nodes), |nodes|, i);
    forall j: nat | j < |types| ensures types[j].descriptor.connection == connection {
      var m := CollectedIsDescribed(names, nodes, ParentTypes(nodes), |nodes|, j);
    }
    RegisteredUnlessMarked(types, connection, TypeName(ShapeOf(names, nodes[i])), k);
  }

  ghost predicate IsRegistered(id: string, types: seq<Artificial>) {
    exists j: nat :: j < |types| && RegisteredId(types[j]) == id
  }

  /** A collected type's own name is an id it is registered under exactly when it has no `!`. */
  lemma RegisteredUnlessMarked(types: seq<Artificial>, connection: string, name: string, k: nat)
    requires k < |types| && Names(types[k], connection, name)
    requires forall j: nat :: j < |types| ==> types[j].descriptor.connection == connection
    ensures IsRegistered(ElementRef(connection, name).AsId(), types) <==> '!' !in name
  {
    var id := ElementRef(connection, name).AsId();
    assert id[|connection| + 1..] == name;
    if '!' !in name {
      PlainIsSame(name);
      assert RegisteredId(types[k]) == id;
    }
    if IsRegistered(id, types) {
      var j: nat :| j < |types| && RegisteredId(types[j]) == id;
      assert id[|connection| + 1..] == Plain(types[j].descriptor.sourceNodeId);
    }
  }

  /** Every collected type whose name has no `!` is the typeElementId of some instance. */
  lemma RegisteredIsUsed(names: DataTypeNames, nodes: seq<NodeDescriptor>, connection: string,
      displayNames: map<string, string>, k: nat)
    returns (i: nat)
    requires OneBrowse(nodes, connection) && k < |Firsts(names, nodes, ParentTypes(nodes), |nodes|)|
    requires '!' !in Firsts(names, nodes, ParentTypes(nodes), |nodes|)[k].descriptor.sourceNodeId
    ensures i < |nodes| && Swapped(Desired(Published(nodes)), PlainNode(nodes[i]))
    ensures TypeElementId(names, Desired(Published(nodes)), displayNames, PlainNode(nodes[i]))
         == RegisteredId(Firsts(names, nodes, ParentTypes(nodes), |nodes|)[k])
  {
    i := CollectedIsDescribed(names, nodes, ParentTypes(nodes), |nodes|, k);
    PlainNodeSame(nodes, connection, i);
    DecisionsAgreeIff(nodes, connection, i);
    PlainIsSame(TypeName(ShapeOf(names, nodes[i])));
  }

  // ------------------------------------------------------------------ a hidden parent

  /** A root folder. */
  const PLANT := NodeDescriptor("i=1", "p", "P", Object, "", Some("i=61"), None, false, "", None, None, None, None, "",
      "")

  /** A typed Object below it, with a numeric NodeId. */
  const BOILER := NodeDescriptor("i=5", "p", "B", Object, "", Some("i=9"), Some("i=1"), true, "Organizes", None, None,
      None, None, "", "")

  /** A generic Variable below that. */
  const LEVEL := NodeDescriptor("s=L", "p", "L", Variable, "", Some("i=63"), Some("i=5"), false, "HasComponent",
                                Some("i=11"), None, Some(1), Some(-1), "", "")

  const STAMPED := [PLANT.(wireNodeId := "i=1"), BOILER.(wireNodeId := "B", parentWireNodeId := "i=1"),
                    LEVEL.(wireNodeId := "s=L", parentWireNodeId := "B")]

  /** Stamping them gives the Boiler its path for a wire id. */
  lemma StampedPlant()
    ensures WireIds.StampAll([PLANT, BOILER, LEVEL]).out == STAMPED
  {
    var nodes := [PLANT, BOILER, LEVEL];
    assert nodes[..1] == [PLANT] && nodes[..2] == [PLANT, BOILER] && nodes[..3] == nodes;
    assert nodes[..1][..0] == [] && nodes[..2][..1] == nodes[..1] && nodes[..3][..2] == nodes[..2];
    assert WireIds.IsNumericIdentifier("i=5") by {
      assert "i=5"[2..] == "5";
    }
    assert !WireIds.IsNumericIdentifier("s=L") && "s=L"[2] == 'L';
    assert BOILER.nodeId[|BOILER.nodeId| - 1] == '5' && WireIds.IsNumeric("i=5");
    assert "s=L"[0] == 's' && !WireIds.IsNumeric("s=L");
    var one := WireIds.StampAll([PLANT]);
    assert one == WireIds.Stamp(WireIds.StampAll([]), PLANT);
    assert one.out == [STAMPED[0]] && one.seen == {"i=1"};
    var two := WireIds.StampAll([PLANT, BOILER]);
    assert two == WireIds.Stamp(one, BOILER);
    assert two.out == [STAMPED[0], STAMPED[1]] && two.seen == {"i=1", "B"};
  }

  lemma HiddenParentBatch()
    ensures OneBrowse(STAMPED, "p") && HiddenParent(STAMPED, 2)
  {
    assert STAMPED[0].nodeId == "i=1" && STAMPED[1].nodeId == "i=5" && STAMPED[2].nodeId == "s=L";
    assert "i=1"[2] != "i=5"[2] && "i=1"[0] != "s=L"[0];
    assert Key(STAMPED[0]) == "p!i=1" && Key(STAMPED[1]) == "p!B" && Key(STAMPED[2]) == "p!s=L";
    assert "p!i=1"[2] != "p!s=L"[2] && |"p!B"| == 3;
    assert HiddenAs(STAMPED, 2, 1);
  }

  lemma {:induction false} NoneCollected(names: DataTypeNames, nodes: seq<NodeDescriptor>,
      parentTypes: map<string, Option<string>>, n: nat)
    requires n <= |nodes| && forall i :: 0 <= i < n ==> !Eligible(nodes[i], parentTypes)
    ensures Firsts(names, nodes, parentTypes, n) == []
  {
    if n > 0 {
      NoneCollected(names, nodes, parentTypes, n - 1);
    }
  }

  ghost predicate OnlyLastShapely(nodes: seq<NodeDescriptor>) {
    nodes != [] && Shapely(nodes[|nodes| - 1]) && forall i :: 0 <= i < |nodes| - 1 ==> !Shapely(nodes[i])
  }

  /** Without an eligible node nothing is collected; only the last one here has a shape. */
  lemma NothingEligible(names: DataTypeNames, nodes: seq<NodeDescriptor>, parentTypes: map<string, Option<string>>)
    requires OnlyLastShapely(nodes) && !Eligible(nodes[|nodes| - 1], parentTypes)
    ensures Firsts(names, nodes, parentTypes, |nodes|) == []
  {
    NoneCollected(names, nodes, parentTypes, |nodes|);
  }

  lemma HiddenDecision(nodes: seq<NodeDescriptor>, connection: string, i: nat)
    requires OneBrowse(nodes, connection) && i < |nodes| && Shapely(nodes[i]) && HiddenParent(nodes, i)
    ensures Swapped(Desired(Published(nodes)), PlainNode(nodes[i])) && !Eligible(nodes[i], ParentTypes(nodes))
  {
    DecisionsAgreeIff(nodes, connection, i);
  }

  /** The Variable is given the id of an artificial type, while no such type is collected. */
  lemma HiddenParentExample(names: DataTypeNames)
    ensures var nodes := WireIds.StampAll([PLANT, BOILER, LEVEL]).out;
      && Swapped(Desired(Published(nodes)), PlainNode(nodes[2]))
      && Firsts(names, nodes, ParentTypes(nodes), |nodes|) == []
  {
    var nodes := WireIds.StampAll([PLANT, BOILER, LEVEL]).out;
    assert OneBrowse(nodes, "p") && HiddenParent(nodes, 2) && OnlyLastShapely(nodes) && |nodes| == 3 by {
      StampedPlant();
      HiddenParentBatch();
    }
    HiddenDecision(nodes, "p", 2);
    NothingEligible(names, nodes, ParentTypes(nodes));
  }

  // ------------------------------------------------------------------ a type name with a mark

  /** A generic Variable below the root folder, whose DataType is the server's own and has a `!` in its name. */
  const GAUGE := LEVEL.(parentNodeId := Some("i=1"), dataTypeNodeId := Some("ns=2;i=9"), dataTypeName := Some("A!B"))

  const GAUGES := [PLANT.(wireNodeId := "i=1"), GAUGE.(wireNodeId := "s=L", parentWireNodeId := "i=1")]

  lemma StampedGauges()
    ensures WireIds.StampAll([PLANT, GAUGE]).out == GAUGES
  {
    var nodes := [PLANT, GAUGE];
    assert nodes[..1] == [PLANT] && nodes[..2] == nodes && nodes[..1][..0] == [] && nodes[..2][..1] == nodes[..1];
    assert !WireIds.IsNumericIdentifier("s=L") && "s=L"[2] == 'L';
    assert "s=L"[0] == 's' && !WireIds.IsNumeric("s=L");
    var one := WireIds.StampAll([PLANT]);
    assert one == WireIds.Stamp(WireIds.StampAll([]), PLANT);
    assert one.out == [GAUGES[0]] && one.seen == {"i=1"};
    assert WireIds.StampAll(nodes) == WireIds.Stamp(one, GAUGE);
  }

  lemma GaugesBatch()
    ensures OneBrowse(GAUGES, "p") && !HiddenParent(GAUGES, 1)
  {
    assert GAUGES[0].nodeId == "i=1" && GAUGES[1].nodeId == "s=L" && "i=1"[0] != "s=L"[0];
    assert Key(GAUGES[0]) == "p!i=1" && Key(GAUGES[1]) == "p!s=L" && "p!i=1"[2] != "p!s=L"[2];
  }

  lemma GaugeIsEligible()
    ensures Eligible(GAUGES[1], ParentTypes(GAUGES))
  {
    assert "i=1"[0] != "s=L"[0];
    assert GAUGES[..|GAUGES| - 1] == [GAUGES[0]] && [GAUGES[0]][..0] == [];
    assert ParentTypes([GAUGES[0]]) == map["i=1" := Some("i=61")];
    assert ParentTypes(GAUGES)["i=1"] == Some("i=61");
  }

  lemma MarkedName(names: DataTypeNames, n: NodeDescriptor)
    requires Shapely(n) && n.dataTypeName == Some("A!B")
    ensures '!' in TypeName(ShapeOf(names, n))
  {
    assert TypeName(ShapeOf(names, n))[1] == "A!B"[1];
  }

  lemma NotRegistered(names: DataTypeNames, nodes: seq<NodeDescriptor>, connection: string,
      displayNames: map<string, string>, i: nat)
    requires OneBrowse(nodes, connection) && i < |nodes| && !HiddenParent(nodes, i)
    requires Eligible(nodes[i], ParentTypes(nodes)) && nodes[i].dataTypeName == Some("A!B")
    ensures Swapped(Desired(Published(nodes)), PlainNode(nodes[i]))
    ensures !IsRegistered(TypeElementId(names, Desired(Published(nodes)), displayNames, PlainNode(nodes[i])),
                          Firsts(names, nodes, ParentTypes(nodes), |nodes|))
  {
    PlainNodeSame(nodes, connection, i);
    DecisionsAgreeIff(nodes, connection, i);
    SwappedIsRegisteredIff(names, nodes, connection, displayNames, i);
    MarkedName(names, PlainNode(nodes[i]));
  }

  /** The Variable is given the id of an artificial type that the registry files without the mark. */
  lemma MarkedNameExample(names: DataTypeNames, displayNames: map<string, string>)
    ensures var nodes := WireIds.StampAll([PLANT, GAUGE]).out; var source := Desired(Published(nodes));
      && Swapped(source, PlainNode(nodes[1]))
      && !IsRegistered(TypeElementId(names, source, displayNames, PlainNode(nodes[1])),
                       Firsts(names, nodes, ParentTypes(nodes), |nodes|))
  {
    var nodes := WireIds.StampAll([PLANT, GAUGE]).out;
    assert OneBrowse(nodes, "p") && !HiddenParent(nodes, 1) && Eligible(nodes[1], ParentTypes(nodes))
        && nodes[1].dataTypeName == Some("A!B") by {
      StampedGauges();
      GaugesBatch();
      GaugeIsEligible();
    }
    NotRegistered(names, nodes, "p", displayNames, 1);
  }

  // ------------------------------------------------------------------ in terms of the records

  /** Each `!` is a dash. */
  ghost predicate IsFreed(was: string, now: string) {
    |now| == |was| && forall i :: 0 <= i < |was| ==> now[i] == if was[i] == '!' then '-' else was[i]
  }

  ghost predicate IsFreedOption(was: Option<string>, now: Option<string>) {
    was.Some? == now.Some? && (was.Some? ==> IsFreed(was.value, now.value))
  }

  /** The ids and names of a published record are freed of the separator, and nothing else is touched. */
  lemma PublishedSays(nodes: seq<NodeDescriptor>, i: nat)
    requires i < |nodes|
    ensures var n, m := nodes[i], Published(nodes)[i];
      && |Published(nodes)| == |nodes|
      && IsFreed(n.nodeId, m.nodeId) && IsFreed(n.displayName, m.displayName)
      && IsFreed(n.namespaceUri, m.namespaceUri)
      && IsFreedOption(n.parentNodeId, m.parentNodeId) && IsFreedOption(n.typeSourceId, m.typeSourceId)
      && m == n.(nodeId := m.nodeId, displayName := m.displayName, namespaceUri := m.namespaceUri,
                 parentNodeId := m.parentNodeId, typeSourceId := m.typeSourceId)
  {
  }

  /** Each character of a NodeId counts for itself, but `=` for nothing, and `;` and `:` for an underscore. */
  lemma {:induction false} LabelSpells(a: string, c: char, b: string)
    ensures Label("") == ""
    ensures Label(a + [c] + b)
         == Label(a) + (if c == '=' then "" else if c == ';' || c == ':' then "_" else [c]) + Label(b)
  {
    if a == "" {
      assert (a + [c] + b)[1..] == b && a + [c] + b == [c] + b;
    } else {
      assert (a + [c] + b)[1..] == a[1..] + [c] + b;
      LabelSpells(a[1..], c, b);
    }
  }

  /** `<DataType>_<Rank>_<Access>`, the parts spelled out for an access level of these lowest bits. */
  ghost predicate IsNameOf(name: string, names: DataTypeNames, n: NodeDescriptor) {
    exists dataType, rank, access ::
      && name == dataType + "_" + rank + "_" + access
      && n.dataTypeNodeId.Some? && n.valueRank.Some? && n.accessLevel.Some?
      && (if n.dataTypeName.Some? && n.dataTypeName.value != "" then dataType == n.dataTypeName.value
          else if names(n.dataTypeNodeId.value).Some? then dataType == names(n.dataTypeNodeId.value).value
          else dataType == "Custom_" + Label(n.dataTypeNodeId.value))
      && rank == (match n.valueRank.value case -1 => "Scalar" case 0 => "AnyDim" case 1 => "Array" case _ => "Multi")
      && HasAccess(n.accessLevel.value, access)
  }

  /** The lowest two bits of the level, read and then write, in words. */
  ghost predicate HasAccess(level: int, word: string) {
    word == match level % 4 case 0 => "NONE" case 1 => "RO" case 2 => "WO" case _ => "RW"
  }

  lemma NameIsSpelled(names: DataTypeNames, n: NodeDescriptor)
    requires Shapely(n)
    ensures IsNameOf(TypeName(ShapeOf(names, n)), names, n)
  {
    assert HasAccess(n.accessLevel.value, AccessOf(n.accessLevel.value));
    var shape := ShapeOf(names, n);
    assert TypeName(shape) == shape.0 + "_" + shape.1 + "_" + shape.2;
  }

  /** A Variable of the base type with a data type, a rank and an access level. */
  ghost predicate IsGeneric(n: NodeDescriptor) {
    && n.nodeClass == Variable && n.typeSourceId == Some("i=63")
    && n.dataTypeNodeId != None && n.valueRank != None && n.accessLevel != None
  }

  /** A node of the batch is the parent and has a type, which is neither BaseObjectType nor FolderType. */
  ghost predicate HasTypedParent(nodes: seq<NodeDescriptor>, i: nat, k: nat)
    requires i < |nodes|
  {
    && k < |nodes| && nodes[i].parentNodeId == Some(nodes[k].nodeId) && nodes[k].typeSourceId.Some?
    && nodes[k].typeSourceId.value != "i=58" && nodes[k].typeSourceId.value != "i=61"
  }

  lemma TypedParentIff(nodes: seq<NodeDescriptor>, i: nat, k: nat)
    requires forall a, b :: 0 <= a < b < |nodes| ==> nodes[a].nodeId != nodes[b].nodeId
    requires i < |nodes| && k < |nodes| && nodes[i].parentNodeId == Some(nodes[k].nodeId)
    ensures (exists j: nat :: HasTypedParent(nodes, i, j)) <==> HasMeaning(nodes[k].typeSourceId)
  {
    assert HasTypedParent(nodes, i, k) <==> HasMeaning(nodes[k].typeSourceId);
    assert forall j: nat :: HasTypedParent(nodes, i, j) ==> j == k;
  }

  lemma ParentMeaningIff(nodes: seq<NodeDescriptor>, i: nat)
    requires forall a, b :: 0 <= a < b < |nodes| ==> nodes[a].nodeId != nodes[b].nodeId
    requires i < |nodes| && nodes[i].parentNodeId.Some?
    ensures var types, p := ParentTypes(nodes), nodes[i].parentNodeId.value;
      (exists k: nat :: HasTypedParent(nodes, i, k)) <==> p in types && HasMeaning(types[p])
  {
    var p := nodes[i].parentNodeId.value;
    ParentTypesExact(nodes, p);
    if k: nat :| k < |nodes| && nodes[k].nodeId == p {
      TypedParentIff(nodes, i, k);
    }
  }

  /** A Variable's type is made up when it is generic and has no typed parent in the batch. */
  lemma EligibleExactly(nodes: seq<NodeDescriptor>, i: nat)
    requires forall a, b :: 0 <= a < b < |nodes| ==> nodes[a].nodeId != nodes[b].nodeId
    requires i < |nodes|
    ensures Eligible(nodes[i], ParentTypes(nodes))
       <==> IsGeneric(nodes[i]) && !exists k: nat :: HasTypedParent(nodes, i, k)
  {
    if nodes[i].parentNodeId.Some? {
      ParentMeaningIff(nodes, i);
    }
  }

  /** Such a parent is found in the registry, which files it under its own NodeId. */
  ghost predicate SeesTypedParent(nodes: seq<NodeDescriptor>, i: nat, k: nat)
    requires i < |nodes|
  {
    HasTypedParent(nodes, i, k) && (nodes[k].wireNodeId == "" || nodes[k].wireNodeId == nodes[k].nodeId)
  }

  /** An instance is given a made-up type on the same condition, except that a typed parent registered under another
      id than its NodeId is not seen. */
  lemma SwappedExactly(nodes: seq<NodeDescriptor>, connection: string, i: nat)
    requires OneBrowse(nodes, connection) && i < |nodes|
    ensures Swapped(Desired(Published(nodes)), PlainNode(nodes[i]))
       <==> (IsGeneric(nodes[i]) && !exists k: nat :: SeesTypedParent(nodes, i, k))
  {
    PlainNodeSame(nodes, connection, i);
    if IsGeneric(nodes[i]) {
      DecisionsAgreeIff(nodes, connection, i);
      EligibleExactly(nodes, i);
      HiddenIff(nodes, i);
    }
  }

  lemma HiddenIff(nodes: seq<NodeDescriptor>, i: nat)
    requires forall a, b :: 0 <= a < b < |nodes| ==> nodes[a].nodeId != nodes[b].nodeId
    requires i < |nodes|
    ensures (exists k: nat :: SeesTypedParent(nodes, i, k))
       <==> ((exists k: nat :: HasTypedParent(nodes, i, k)) && !HiddenParent(nodes, i))
  {
    forall j: nat, k: nat | HasTypedParent(nodes, i, j) && HiddenAs(nodes, i, k) ensures j == k {
    }
    forall k: nat | HasTypedParent(nodes, i, k) ensures HiddenAs(nodes, i, k) <==> !SeesTypedParent(nodes, i, k) {
    }
  }

  /** Such an instance is typed by its connection and the name that its attributes spell. */
  lemma SwappedTypeIsSpelled(names: DataTypeNames, registry: Dict<NodeDescriptor>, displayNames: map<string, string>,
                             n: NodeDescriptor)
    returns (name: string)
    requires Swapped(registry, n)
    ensures IsNameOf(name, names, n) && TypeElementId(names, registry, displayNames, n) == n.connection + "!" + name
  {
    name := TypeName(ShapeOf(names, n));
    NameIsSpelled(names, n);
  }

  /** Any other keeps its own type: by the display name of a registered type, else by its source, else unknown. */
  lemma OtherTypeIsKept(names: DataTypeNames, registry: Dict<NodeDescriptor>, displayNames: map<string, string>,
                        n: NodeDescriptor)
    requires !Swapped(registry, n)
    ensures TypeElementId(names, registry, displayNames, n) == n.connection + "!" +
        if n.typeSourceId == None then "UnknownType"
        else if n.typeSourceId.value in displayNames then displayNames[n.typeSourceId.value] else n.typeSourceId.value
  {
  }

  /** A collected type is named by what an eligible Variable's attributes spell, stands under that Variable's connection
      and namespace, and has the schema of its data type and rank. */
  lemma CollectedSays(names: DataTypeNames, nodes: seq<NodeDescriptor>, parentTypes: map<string, Option<string>>,
                      k: nat)
    returns (i: nat)
    requires k < |Firsts(names, nodes, parentTypes, |nodes|)|
    ensures i < |nodes| && Eligible(nodes[i], parentTypes)
    ensures var t, n := Firsts(names, nodes, parentTypes, |nodes|)[k], nodes[i];
      && IsNameOf(t.descriptor.sourceNodeId, names, n) && t.descriptor.connection == n.connection
      && t.descriptor.structuralHash == "artificial:" + n.connection + ":" + t.descriptor.sourceNodeId
      && t.namespaceUri == n.namespaceUri && Some(t.dataType) == n.dataTypeNodeId && Some(t.valueRank) == n.valueRank
  {
    i := CollectedIsDescribed(names, nodes, parentTypes, |nodes|, k);
    NameIsSpelled(names, nodes[i]);
  }
}
