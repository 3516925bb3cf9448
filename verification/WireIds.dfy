/** Stamping readable wire ids (adapters/asyncua/browse.py). */
module WireIds {
  import opened Neutral

  /** `^(?:ns=\\d+;)?i=\\d+$`, which also accepts one trailing line feed. */
  predicate IsNumeric(nodeId: string) {
    var text := if nodeId != "" && nodeId[|nodeId| - 1] == '\n' then nodeId[..|nodeId| - 1] else nodeId;
    || IsNumericIdentifier(text)
    || (StartsWith(text, "ns=") &&
        match Cut(text[3..], ';')
        case None => false
        case Some((index, identifier)) => AllDigits(index) && IsNumericIdentifier(identifier))
  }

  predicate IsNumericIdentifier(text: string) {
    StartsWith(text, "i=") && AllDigits(text[2..])
  }

  /** `i=` and digits, or `ns=`, digits, `;i=` and digits. */
  ghost predicate Spells(text: string, index: string, digits: string) {
    AllDigits(digits) && (text == "i=" + digits || (AllDigits(index) && text == "ns=" + index + ";i=" + digits))
  }

  function Unbroken(nodeId: string): string {
    if nodeId != "" && nodeId[|nodeId| - 1] == '\n' then nodeId[..|nodeId| - 1] else nodeId
  }

  lemma PlainIdentifier(digits: string)
    requires AllDigits(digits)
    ensures IsNumericIdentifier("i=" + digits)
  {
    assert ("i=" + digits)[2..] == digits && ("i=" + digits)[..2] == "i=";
  }

  lemma SpelledIsNumeric(nodeId: string, index: string, digits: string)
    requires Spells(Unbroken(nodeId), index, digits)
    ensures IsNumeric(nodeId)
  {
    var text := Unbroken(nodeId);
    PlainIdentifier(digits);
    if text != "i=" + digits {
      assert text[3..] == index + ";" + ("i=" + digits) && text[..3] == "ns=";
      assert ';' !in index;
      CutAt(index, ';', "i=" + digits);
    }
  }

  lemma NumericSpells(nodeId: string) returns (index: string, digits: string)
    requires IsNumeric(nodeId)
    ensures Spells(Unbroken(nodeId), index, digits)
  {
    var text := Unbroken(nodeId);
    index, digits := "", "";
    if IsNumericIdentifier(text) {
      digits := text[2..];
      assert text == text[..2] + text[2..];
    } else {
      index := Cut(text[3..], ';').value.0;
      var identifier := Cut(text[3..], ';').value.1;
      digits := identifier[2..];
      assert text == text[..3] + text[3..] && identifier == identifier[..2] + identifier[2..];
    }
  }

  /** The NodeIds that take their display path for a wire id. */
  lemma IsNumericIff(nodeId: string)
    ensures IsNumeric(nodeId) <==> exists index, digits :: Spells(Unbroken(nodeId), index, digits)
  {
    if IsNumeric(nodeId) {
      var index, digits := NumericSpells(nodeId);
    }
    if index, digits :| Spells(Unbroken(nodeId), index, digits) {
      SpelledIsNumeric(nodeId, index, digits);
    }
  }

  /** The maps, the set and the list the loop fills. */
  datatype Stamping = Stamping(
    pathOf: map<string, string>, wireOf: map<string, string>, seen: set<string>, out: seq<NodeDescriptor>)

  function Get(m: map<string, string>, key: string): string {
    if key in m then m[key] else ""
  }

  function PathUnder(s: Stamping, n: NodeDescriptor): string {
    if n.parentNodeId.None? then "" else
      var above := Get(s.pathOf, n.parentNodeId.value);
      if above != "" then above + "." + n.displayName else n.displayName
  }

  /** The wire id a node asks for, before any disambiguation. */
  function Wish(n: NodeDescriptor, path: string): string {
    if IsNumeric(n.nodeId) && path != "" then path else n.nodeId
  }

  function Marked(wire: string, nodeId: string): string {
    wire + "#" + nodeId
  }

  function Stamp(s: Stamping, n: NodeDescriptor): Stamping {
    var path := PathUnder(s, n);
    var wanted := Wish(n, path);
    var wire := if wanted in s.seen then Marked(wanted, n.nodeId) else wanted;
    Stamping(
      s.pathOf[n.nodeId := path], s.wireOf[n.nodeId := wire], s.seen + {wire},
      s.out + [n.(wireNodeId := wire, parentWireNodeId := Get(s.wireOf, n.parentNodeId.GetOr("")))])
  }

  function StampAll(nodes: seq<NodeDescriptor>): (s: Stamping)
    ensures |s.out| == |nodes|
    decreases |nodes|
  {
    if nodes == [] then Stamping(map[], map[], {}, []) else
      Stamp(StampAll(nodes[..|nodes| - 1]), nodes[|nodes| - 1])
  }

  method StampWireNodeIds(nodes: seq<NodeDescriptor>) returns (out: seq<NodeDescriptor>)
    ensures out == StampAll(nodes).out
  {
    var pathOf: map<string, string>, wireOf: map<string, string>, seen: set<string> := map[], map[], {};
    out := [];
    for i := 0 to |nodes|
      invariant Stamping(pathOf, wireOf, seen, out) == StampAll(nodes[..i])
    {
      var n := nodes[i];
      assert nodes[..i + 1][..i] == nodes[..i];
      var path := "";
      if n.parentNodeId.Some? {
        var above := Get(pathOf, n.parentNodeId.value);
        path := if above != "" then above + "." + n.displayName else n.displayName;
      }
      pathOf := pathOf[n.nodeId := path];
      var wire := if IsNumeric(n.nodeId) && path != "" then path else n.nodeId;
      if wire in seen {
        wire := Marked(wire, n.nodeId);
      }
      seen := seen + {wire};
      var parentWire := Get(wireOf, n.parentNodeId.GetOr(""));
      wireOf := wireOf[n.nodeId := wire];
      out := out + [n.(wireNodeId := wire, parentWireNodeId := parentWire)];
    }
    assert nodes[..|nodes|] == nodes;
  }

  // ------------------------------------------------------------------ what a node asks for

  function Paths(nodes: seq<NodeDescriptor>): (paths: seq<string>)
    ensures |paths| == |nodes|
    decreases |nodes|
  {
    if nodes == [] then [] else
      var front := nodes[..|nodes| - 1];
      Paths(front) + [PathUnder(StampAll(front), nodes[|nodes| - 1])]
  }

  function Wants(nodes: seq<NodeDescriptor>): (wants: seq<string>)
    ensures |wants| == |nodes|
  {
    seq(|nodes|, i requires 0 <= i < |nodes| => Wish(nodes[i], Paths(nodes)[i]))
  }

  function Ids(nodes: seq<NodeDescriptor>): (ids: seq<string>)
    ensures |ids| == |nodes|
  {
    seq(|nodes|, i requires 0 <= i < |nodes| => nodes[i].nodeId)
  }

  /** The ids handed out to a list of wishes: a wish already taken gets the raw id appended. */
  function Assigned(wants: seq<string>, ids: seq<string>): (wires: seq<string>)
    requires |ids| == |wants|
    ensures |wires| == |wants|
    decreases |wants|
  {
    if wants == [] then [] else
      var n := |wants| - 1;
      var front := Assigned(wants[..n], ids[..n]);
      front + [if wants[n] in front then Marked(wants[n], ids[n]) else wants[n]]
  }

  function Wires(nodes: seq<NodeDescriptor>): seq<string> {
    seq(|nodes|, i requires 0 <= i < |nodes| => StampAll(nodes).out[i].wireNodeId)
  }

  lemma {:induction false} StampingAssigns(nodes: seq<NodeDescriptor>)
    ensures Wires(nodes) == Assigned(Wants(nodes), Ids(nodes))
    ensures StampAll(nodes).seen == ToSet(Wires(nodes))
    decreases |nodes|
  {
    if nodes != [] {
      var n := |nodes| - 1;
      StampingAssigns(nodes[..n]);
      assert Wants(nodes)[..n] == Wants(nodes[..n]) && Ids(nodes)[..n] == Ids(nodes[..n]);
      assert Wires(nodes)[..n] == Wires(nodes[..n]);
      assert Wires(nodes) == Wires(nodes[..n]) + [Wires(nodes)[n]];
    }
  }

  /** A numeric node with a path asks for the path, any other node for its NodeId; it is given what it asks for, or
      that with `#` and its NodeId when the id was handed out before. */
  lemma StampedByForm(nodes: seq<NodeDescriptor>, i: nat)
    requires i < |nodes|
    ensures var id, path := nodes[i].nodeId, Paths(nodes)[i];
      var wish := if path != "" && exists index, digits :: Spells(Unbroken(id), index, digits) then path else id;
      StampAll(nodes).out[i].wireNodeId
        == if wish in StampAll(nodes[..i]).seen then wish + "#" + id else wish
  {
    IsNumericIff(nodes[i].nodeId);
    StampedAtIndex(nodes, i);
  }

  lemma StampedAtIndex(nodes: seq<NodeDescriptor>, i: nat)
    requires i < |nodes|
    ensures var wish := Wish(nodes[i], Paths(nodes)[i]);
      StampAll(nodes).out[i].wireNodeId
        == if wish in StampAll(nodes[..i]).seen then Marked(wish, nodes[i].nodeId) else wish
  {
    OutPrefix(nodes, i);
    PathsPrefix(nodes, i);
    assert nodes[..i + 1][..i] == nodes[..i];
  }

  // ------------------------------------------------------------------ when the ids stay distinct

  /** Some id handed out before position `i` reads `wire`. */
  ghost predicate Occupied(wants: seq<string>, ids: seq<string>, i: nat, wire: string)
    requires |ids| == |wants| && i <= |wants|
    decreases i
  {
    exists k :: 0 <= k < i &&
      (wants[k] == wire || (Marked(wants[k], ids[k]) == wire && Occupied(wants, ids, k, wants[k])))
  }

  /** Node `i` finds its wish taken, and an earlier wish reads like the marked form it falls back to. */
  ghost predicate Clashes(wants: seq<string>, ids: seq<string>, i: nat)
    requires |ids| == |wants| && i < |wants|
  {
    Occupied(wants, ids, i, wants[i]) && exists j :: 0 <= j < i && wants[j] == Marked(wants[i], ids[i])
  }

  ghost predicate PlainIds(ids: seq<string>) {
    NoRepeats(ids) && forall id <- ids :: '#' !in id
  }

  lemma NoMarkAfter(a: string, x: string)
    requires '#' !in x
    ensures forall k :: |a| < k < |Marked(a, x)| ==> Marked(a, x)[k] != '#'
  {
    forall k | |a| < k < |Marked(a, x)| ensures Marked(a, x)[k] != '#' {
      assert x[k - |a| - 1] in x;
    }
  }

  lemma MarkNotBefore(a: string, x: string, b: string, y: string)
    requires Marked(a, x) == Marked(b, y) && '#' !in x
    ensures |b| <= |a|
  {
    NoMarkAfter(a, x);
    assert Marked(b, y)[|b|] == '#';
  }

  lemma MarkedInjective(a: string, x: string, b: string, y: string)
    requires Marked(a, x) == Marked(b, y) && '#' !in x && '#' !in y
    ensures a == b && x == y
  {
    MarkNotBefore(a, x, b, y);
    MarkNotBefore(b, y, a, x);
    assert Marked(a, x)[..|a|] == a && Marked(a, x)[|a| + 1..] == x;
    assert Marked(b, y)[..|b|] == b && Marked(b, y)[|b| + 1..] == y;
  }

  lemma {:induction false} AssignedPrefix(wants: seq<string>, ids: seq<string>, i: nat)
    requires |ids| == |wants| && i <= |wants|
    ensures Assigned(wants, ids)[..i] == Assigned(wants[..i], ids[..i])
    decreases |wants|
  {
    var n := |wants|;
    if i < n {
      AssignedPrefix(wants[..n - 1], ids[..n - 1], i);
      assert wants[..n - 1][..i] == wants[..i] && ids[..n - 1][..i] == ids[..i];
    } else {
      assert wants[..i] == wants && ids[..i] == ids;
    }
  }

  lemma AssignedAt(wants: seq<string>, ids: seq<string>, i: nat)
    requires |ids| == |wants| && i < |wants|
    ensures var w := Assigned(wants, ids); w[i] == if wants[i] in w[..i] then Marked(wants[i], ids[i]) else wants[i]
  {
    AssignedPrefix(wants, ids, i + 1);
    AssignedPrefix(wants, ids, i);
    assert wants[..i + 1][..i] == wants[..i] && ids[..i + 1][..i] == ids[..i];
    assert Assigned(wants, ids)[..i + 1][i] == Assigned(wants, ids)[i];
  }

  lemma OccupiedStep(wants: seq<string>, ids: seq<string>, n: nat, wire: string)
    requires |ids| == |wants| && n < |wants|
    ensures Occupied(wants, ids, n + 1, wire) <==>
      Occupied(wants, ids, n, wire) || wants[n] == wire
          || (Marked(wants[n], ids[n]) == wire && Occupied(wants, ids, n, wants[n]))
  {
  }

  lemma {:induction false} OccupiedIsTaken(wants: seq<string>, ids: seq<string>, i: nat, wire: string)
    requires |ids| == |wants| && i <= |wants|
    ensures Occupied(wants, ids, i, wire) <==> wire in Assigned(wants, ids)[..i]
    decreases i
  {
    if i > 0 {
      var w, n := Assigned(wants, ids), i - 1;
      OccupiedStep(wants, ids, n, wire);
      OccupiedIsTaken(wants, ids, n, wire);
      OccupiedIsTaken(wants, ids, n, wants[n]);
      AssignedAt(wants, ids, n);
      assert w[..i] == w[..n] + [w[n]];
    }
  }

  /** Only a wish that reads like it can have taken a marked id. */
  lemma MarkedTaken(wants: seq<string>, ids: seq<string>, i: nat)
    requires |ids| == |wants| && i < |wants| && PlainIds(ids)
    ensures Marked(wants[i], ids[i]) in Assigned(wants, ids)[..i]
       <==> exists j :: 0 <= j < i && wants[j] == Marked(wants[i], ids[i])
  {
    var w, x := Assigned(wants, ids), Marked(wants[i], ids[i]);
    if x in w[..i] {
      var j :| 0 <= j < i && w[j] == x;
      AssignedAt(wants, ids, j);
      if wants[j] in w[..j] {
        assert ids[i] in ids && ids[j] in ids;
        MarkedInjective(wants[j], ids[j], wants[i], ids[i]);
      }
    }
    if j :| 0 <= j < i && wants[j] == x {
      OccupiedIsTaken(wants, ids, i, x);
    }
  }

  /** For distinct NodeIds free of `#`, the stamped ids are pairwise distinct exactly when no node clashes. */
  lemma DistinctIffNoClash(nodes: seq<NodeDescriptor>)
    requires PlainIds(Ids(nodes))
    ensures NoRepeats(Wires(nodes)) <==> forall i :: 0 <= i < |nodes| ==> !Clashes(Wants(nodes), Ids(nodes), i)
  {
    var wants, ids, w := Wants(nodes), Ids(nodes), Wires(nodes);
    StampingAssigns(nodes);
    forall i | 0 <= i < |nodes| ensures w[i] in w[..i] <==> Clashes(wants, ids, i) {
      AssignedAt(wants, ids, i);
      OccupiedIsTaken(wants, ids, i, wants[i]);
      MarkedTaken(wants, ids, i);
    }
    if NoRepeats(w) {
      assert forall i :: 0 <= i < |nodes| ==> w[i] !in w[..i];
    }
    forall i, j | 0 <= i < j < |w| && w[i] == w[j] ensures Clashes(wants, ids, j) {
      assert w[..j][i] == w[j];
    }
  }

  ghost predicate EndsMarked(path: string, nodeId: string) {
    exists stem :: path == Marked(stem, nodeId)
  }

  lemma WantsPathOrId(nodes: seq<NodeDescriptor>, j: nat)
    requires j < |nodes|
    ensures Wants(nodes)[j] == Paths(nodes)[j] || Wants(nodes)[j] == Ids(nodes)[j]
  {
  }

  lemma PathUnmarkedNoClash(wants: seq<string>, ids: seq<string>, i: nat, path: string, j: nat)
    requires |ids| == |wants| && i < |wants| && j < |wants| && PlainIds(ids)
    requires wants[j] == path || wants[j] == ids[j]
    requires !EndsMarked(path, ids[i])
    ensures wants[j] != Marked(wants[i], ids[i])
  {
    assert ids[j] in ids && Marked(wants[i], ids[i])[|wants[i]|] == '#';
    assert EndsMarked(Marked(wants[i], ids[i]), ids[i]);
  }

  /** In particular when no display path ends in `#` and a NodeId of the batch. */
  lemma DistinctWithoutMarkedPaths(nodes: seq<NodeDescriptor>)
    requires PlainIds(Ids(nodes))
    requires forall i, j :: 0 <= i < |nodes| && 0 <= j < |nodes| ==> !EndsMarked(Paths(nodes)[i], Ids(nodes)[j])
    ensures NoRepeats(Wires(nodes))
  {
    forall i, j | 0 <= i < |nodes| && 0 <= j < i ensures Wants(nodes)[j] != Marked(Wants(nodes)[i], Ids(nodes)[i]) {
      WantsPathOrId(nodes, j);
      PathUnmarkedNoClash(Wants(nodes), Ids(nodes), i, Paths(nodes)[j], j);
    }
    DistinctIffNoClash(nodes);
  }

  lemma NumericExamples()
    ensures IsNumeric("i=1") && IsNumeric("i=2") && IsNumeric("i=3")
  {
    assert AllDigits("1") && AllDigits("2") && AllDigits("3");
    assert "i=1"[2..] == "1" && "i=2"[2..] == "2" && "i=3"[2..] == "3";
    assert IsNumericIdentifier("i=1") && IsNumericIdentifier("i=2") && IsNumericIdentifier("i=3");
  }

  /** A numeric node whose parent was not emitted asks for its name. */
  lemma OrphanWants(nodes: seq<NodeDescriptor>, i: nat)
    requires i < |nodes| && nodes[i].displayName != "" && IsNumericIdentifier(nodes[i].nodeId)
    requires nodes[i].parentNodeId.Some? && forall m <- nodes[..i] :: m.nodeId != nodes[i].parentNodeId.value
    ensures Wants(nodes)[i] == nodes[i].displayName
  {
    PathsPrefix(nodes, i);
    OrphanPath(nodes[..i], nodes[i]);
  }

  /** The clash is possible: two nodes named `x`, and one before them named like the second one's marked id. */
  lemma ClashExample() returns (nodes: seq<NodeDescriptor>)
    ensures PlainIds(Ids(nodes)) && !NoRepeats(Wires(nodes))
    ensures forall i :: 0 <= i < |nodes| ==> nodes[i].connection == "c" && nodes[i].nodeId != ""
  {
    var a := NodeDescriptor("i=1", "c", "x#i=3", Object, "", None, Some("p"), false, "", None, None, None, None, "",
        "");
    nodes := [a, a.(nodeId := "i=2", displayName := "x"), a.(nodeId := "i=3", displayName := "x")];
    NumericExamples();
    assert |"p"| == 1;
    OrphanWants(nodes, 0);
    OrphanWants(nodes, 1);
    OrphanWants(nodes, 2);
    ClashingWants(nodes);
  }

  lemma ClashingWants(nodes: seq<NodeDescriptor>)
    requires |nodes| == 3 && Ids(nodes) == ["i=1", "i=2", "i=3"]
    requires Wants(nodes)[0] == "x#i=3" && Wants(nodes)[1] == Wants(nodes)[2] == "x"
    ensures PlainIds(Ids(nodes)) && !NoRepeats(Wires(nodes))
  {
    assert Wants(nodes)[0] == Marked("x", "i=3");
    assert Occupied(Wants(nodes), Ids(nodes), 2, "x");
    assert Clashes(Wants(nodes), Ids(nodes), 2);
    DistinctIffNoClash(nodes);
  }

  /** A node whose parent was not emitted starts its own path. */
  lemma {:induction false} OrphanPath(nodes: seq<NodeDescriptor>, n: NodeDescriptor)
    requires n.parentNodeId.Some? && forall m <- nodes :: m.nodeId != n.parentNodeId.value
    ensures PathUnder(StampAll(nodes), n) == n.displayName
    decreases |nodes|
  {
    if nodes != [] {
      OrphanPath(nodes[..|nodes| - 1], n);
      assert nodes[|nodes| - 1] in nodes;
    }
  }

  // ------------------------------------------------------------------ what a path spells

  /** Where the maps last learned about `id` among the first `i` nodes. */
  function LastIndex(nodes: seq<NodeDescriptor>, id: string, i: nat): (at: Option<nat>)
    requires i <= |nodes|
    ensures at.Some? ==> at.value < i && nodes[at.value].nodeId == id
    ensures at.None? ==> forall j :: 0 <= j < i ==> nodes[j].nodeId != id
  {
    if i == 0 then None
    else if nodes[i - 1].nodeId == id then Some(i - 1)
    else LastIndex(nodes, id, i - 1)
  }

  /** The display names from below the root down to node `i`; a parent that was not emitted cuts them short. */
  function Names(nodes: seq<NodeDescriptor>, i: nat): seq<string>
    requires i < |nodes|
    decreases i
  {
    if nodes[i].parentNodeId.None? then [] else
      match LastIndex(nodes, nodes[i].parentNodeId.value, i)
      case None => [nodes[i].displayName]
      case Some(j) => Names(nodes, j) + [nodes[i].displayName]
  }

  function DotJoin(names: seq<string>): string {
    if names == [] then "" else
      var n := |names| - 1;
      if n == 0 then names[0] else DotJoin(names[..n]) + "." + names[n]
  }

  function DropLeadingEmpty(names: seq<string>): seq<string> {
    if names != [] && names[0] == "" then DropLeadingEmpty(names[1..]) else names
  }

  function NonEmpty(names: seq<string>): seq<string> {
    if names == [] then [] else (if names[0] == "" then [] else [names[0]]) + NonEmpty(names[1..])
  }

  lemma {:induction false} PathsPrefix(nodes: seq<NodeDescriptor>, i: nat)
    requires i < |nodes|
    ensures Paths(nodes)[i] == PathUnder(StampAll(nodes[..i]), nodes[i])
    decreases |nodes|
  {
    var n := |nodes| - 1;
    var last := PathUnder(StampAll(nodes[..n]), nodes[n]);
    assert Paths(nodes) == Paths(nodes[..n]) + [last];
    if i < n {
      PathsPrefix(nodes[..n], i);
      assert nodes[..n][..i] == nodes[..i];
    }
  }

  lemma {:induction false} MapsRememberLast(nodes: seq<NodeDescriptor>, id: string, i: nat)
    requires i <= |nodes|
    ensures Get(StampAll(nodes[..i]).pathOf, id)
        == (match LastIndex(nodes, id, i) case None => "" case Some(j) => Paths(nodes)[j])
    ensures Get(StampAll(nodes[..i]).wireOf, id)
        == (match LastIndex(nodes, id, i) case None => "" case Some(j) => Wires(nodes)[j])
    decreases i
  {
    if i > 0 {
      var n := i - 1;
      assert nodes[..i][..n] == nodes[..n];
      MapsRememberLast(nodes, id, n);
      PathsPrefix(nodes, n);
      OutPrefix(nodes, n);
    }
  }

  lemma {:induction false} OutPrefix(nodes: seq<NodeDescriptor>, i: nat)
    requires i < |nodes|
    ensures StampAll(nodes).out[i] == StampAll(nodes[..i + 1]).out[i]
    decreases |nodes|
  {
    var n := |nodes| - 1;
    if i < n {
      OutPrefix(nodes[..n], i);
      assert nodes[..n][..i + 1] == nodes[..i + 1];
    } else {
      assert nodes[..i + 1] == nodes;
    }
  }

  lemma {:induction false} DropLeadingEmptyAppend(names: seq<string>, last: string)
    ensures DropLeadingEmpty(names + [last])
         == if DropLeadingEmpty(names) != [] then DropLeadingEmpty(names) + [last] else DropLeadingEmpty([last])
  {
    if names == [] {
      assert names + [last] == [last];
    } else if names[0] == "" {
      assert (names + [last])[1..] == names[1..] + [last];
      DropLeadingEmptyAppend(names[1..], last);
    }
  }

  lemma {:induction false} DotJoinEmpty(names: seq<string>)
    requires names == DropLeadingEmpty(names)
    ensures DotJoin(names) == "" <==> names == []
  {
  }

  lemma {:induction false} DropLeadingEmptyIdempotent(names: seq<string>)
    ensures DropLeadingEmpty(DropLeadingEmpty(names)) == DropLeadingEmpty(names)
  {
    if names != [] && names[0] == "" {
      DropLeadingEmptyIdempotent(names[1..]);
    }
  }

  /** A path is the dot-join of the names below the root without the empty ones at the front. */
  lemma {:induction false} PathIsJoin(nodes: seq<NodeDescriptor>, i: nat)
    requires i < |nodes|
    ensures Paths(nodes)[i] == DotJoin(DropLeadingEmpty(Names(nodes, i)))
    decreases i
  {
    PathsPrefix(nodes, i);
    if nodes[i].parentNodeId.Some? {
      var p, d := nodes[i].parentNodeId.value, nodes[i].displayName;
      MapsRememberLast(nodes, p, i);
      match LastIndex(nodes, p, i) {
        case None =>
        case Some(j) =>
          PathIsJoin(nodes, j);
          var above := DropLeadingEmpty(Names(nodes, j));
          DropLeadingEmptyAppend(Names(nodes, j), d);
          DropLeadingEmptyIdempotent(Names(nodes, j));
          DotJoinEmpty(above);
          if above != [] {
            assert (above + [d])[..|above|] == above;
          }
      }
    }
  }

  function Total(names: seq<string>): nat {
    if names == [] then 0 else |names[0]| + Total(names[1..])
  }

  lemma {:induction false} TotalAppend(names: seq<string>, last: string)
    ensures Total(names + [last]) == Total(names) + |last|
  {
    if names != [] {
      assert (names + [last])[1..] == names[1..] + [last];
      TotalAppend(names[1..], last);
    }
  }

  lemma {:induction false} DotJoinLength(names: seq<string>)
    requires names != []
    ensures |DotJoin(names)| == Total(names) + |names| - 1
    decreases |names|
  {
    var n := |names| - 1;
    assert names == names[..n] + [names[n]];
    TotalAppend(names[..n], names[n]);
    if n > 0 {
      DotJoinLength(names[..n]);
    }
  }

  lemma {:induction false} NonEmptyKeepsText(names: seq<string>)
    ensures Total(NonEmpty(names)) == Total(names) && |NonEmpty(names)| <= |names|
    ensures |NonEmpty(names)| == |names| <==> "" !in names
    ensures "" !in names ==> NonEmpty(names) == names
    ensures names != [] && names[0] != "" ==> NonEmpty(names) != []
  {
    if names != [] {
      NonEmptyKeepsText(names[1..]);
      var rest := NonEmpty(names[1..]);
      if names[0] != "" {
        assert NonEmpty(names)[0] == names[0] && NonEmpty(names)[1..] == rest;
      } else {
        assert NonEmpty(names) == rest;
      }
      assert names == [names[0]] + names[1..];
    }
  }

  lemma JoinsAgreeIff(names: seq<string>)
    requires names != [] ==> names[0] != ""
    ensures DotJoin(names) == DotJoin(NonEmpty(names)) <==> "" !in names
  {
    NonEmptyKeepsText(names);
    if names != [] {
      DotJoinLength(names);
      DotJoinLength(NonEmpty(names));
    }
  }

  lemma {:induction false} DropLeadingEmptyStart(names: seq<string>)
    ensures DropLeadingEmpty(names) != [] ==> DropLeadingEmpty(names)[0] != ""
    ensures NonEmpty(DropLeadingEmpty(names)) == NonEmpty(names)
  {
    if names != [] && names[0] == "" {
      DropLeadingEmptyStart(names[1..]);
    }
  }

  /** The path is the dot-join of the non-empty names exactly when no empty name
      follows a non-empty one; `A` above an unnamed node gives `A.`, not `A`. */
  lemma PathSkipsEmptyNamesIff(nodes: seq<NodeDescriptor>, i: nat)
    requires i < |nodes|
    ensures Paths(nodes)[i] == DotJoin(NonEmpty(Names(nodes, i))) <==> "" !in DropLeadingEmpty(Names(nodes, i))
  {
    PathIsJoin(nodes, i);
    DropLeadingEmptyStart(Names(nodes, i));
    JoinsAgreeIff(DropLeadingEmpty(Names(nodes, i)));
  }

  // ------------------------------------------------------------------ wire and raw ids

  /** The index built after a browse, raw to wire (upstream.py); a later node overwrites. */
  function WireByRaw(nodes: seq<NodeDescriptor>): map<string, string>
    decreases |nodes|
  {
    if nodes == [] then map[] else
      var n := nodes[|nodes| - 1];
      WireByRaw(nodes[..|nodes| - 1])[n.nodeId := if n.wireNodeId != "" then n.wireNodeId else n.nodeId]
  }

  /** Its inverse map, which keeps some raw id for each wire id. */
  ghost predicate InvertsInto(wireByRaw: map<string, string>, rawByWire: map<string, string>) {
    && (forall raw :: raw in wireByRaw ==> wireByRaw[raw] in rawByWire)
    && (forall wire :: wire in rawByWire ==> rawByWire[wire] in wireByRaw && wireByRaw[rawByWire[wire]] == wire)
  }

  lemma {:induction false} WireByRawIsStamp(nodes: seq<NodeDescriptor>, i: nat)
    requires NoRepeats(Ids(nodes)) && i < |nodes| && nodes[i].wireNodeId != ""
    ensures nodes[i].nodeId in WireByRaw(nodes) && WireByRaw(nodes)[nodes[i].nodeId] == nodes[i].wireNodeId
    decreases |nodes|
  {
    var n := |nodes| - 1;
    if i < n {
      assert forall j :: 0 <= j < n ==> Ids(nodes[..n])[j] == Ids(nodes)[j];
      WireByRawIsStamp(nodes[..n], i);
      assert Ids(nodes)[i] != Ids(nodes)[n];
    }
  }

  lemma {:induction false} WireByRawSource(nodes: seq<NodeDescriptor>, raw: string) returns (i: nat)
    requires raw in WireByRaw(nodes)
    ensures i < |nodes| && nodes[i].nodeId == raw
    decreases |nodes|
  {
    i := |nodes| - 1;
    if nodes[i].nodeId != raw {
      i := WireByRawSource(nodes[..i], raw);
    }
  }

  ghost predicate RoundTrips(nodes: seq<NodeDescriptor>, rawByWire: map<string, string>) {
    forall i :: 0 <= i < |nodes| ==> ReturnsAt(nodes, rawByWire, i)
  }

  ghost predicate DistinctWires(nodes: seq<NodeDescriptor>) {
    forall i, j :: 0 <= i < j < |nodes| ==> nodes[i].wireNodeId != nodes[j].wireNodeId
  }

  ghost predicate ReturnsAt(nodes: seq<NodeDescriptor>, rawByWire: map<string, string>, i: nat)
    requires i < |nodes|
  {
    nodes[i].wireNodeId in rawByWire && rawByWire[nodes[i].wireNodeId] == nodes[i].nodeId
  }

  lemma InverseAt(wireByRaw: map<string, string>, rawByWire: map<string, string>, raw: string) returns (back: string)
    requires InvertsInto(wireByRaw, rawByWire) && raw in wireByRaw
    ensures wireByRaw[raw] in rawByWire && back == rawByWire[wireByRaw[raw]]
    ensures back in wireByRaw && wireByRaw[back] == wireByRaw[raw]
  {
    back := rawByWire[wireByRaw[raw]];
  }

  lemma DistinctWiresRoundTrip(nodes: seq<NodeDescriptor>, rawByWire: map<string, string>, i: nat)
    requires NoRepeats(Ids(nodes)) && (forall j :: 0 <= j < |nodes| ==> nodes[j].wireNodeId != "")
    requires InvertsInto(WireByRaw(nodes), rawByWire) && DistinctWires(nodes) && i < |nodes|
    ensures ReturnsAt(nodes, rawByWire, i)
  {
    WireByRawIsStamp(nodes, i);
    var back := InverseAt(WireByRaw(nodes), rawByWire, nodes[i].nodeId);
    var j := WireByRawSource(nodes, back);
    WireByRawIsStamp(nodes, j);
    assert i == j by {
      assert nodes[j].wireNodeId == nodes[i].wireNodeId;
    }
  }

  lemma RoundTripsDistinct(nodes: seq<NodeDescriptor>, rawByWire: map<string, string>)
    requires NoRepeats(Ids(nodes)) && RoundTrips(nodes, rawByWire)
    ensures DistinctWires(nodes)
  {
    forall i, j | 0 <= i < j < |nodes| ensures nodes[i].wireNodeId != nodes[j].wireNodeId {
      assert Ids(nodes)[i] != Ids(nodes)[j];
      assert ReturnsAt(nodes, rawByWire, i) && ReturnsAt(nodes, rawByWire, j);
    }
  }

  lemma DistinctRoundTrips(nodes: seq<NodeDescriptor>, rawByWire: map<string, string>)
    requires NoRepeats(Ids(nodes)) && (forall j :: 0 <= j < |nodes| ==> nodes[j].wireNodeId != "")
    requires InvertsInto(WireByRaw(nodes), rawByWire) && DistinctWires(nodes)
    ensures RoundTrips(nodes, rawByWire)
  {
    forall i | 0 <= i < |nodes| ensures ReturnsAt(nodes, rawByWire, i) {
      DistinctWiresRoundTrip(nodes, rawByWire, i);
    }
  }

  /** Every raw id comes back from its wire id exactly when the wire ids are distinct. */
  lemma WireRoundTripIff(nodes: seq<NodeDescriptor>, rawByWire: map<string, string>)
    requires NoRepeats(Ids(nodes)) && (forall j :: 0 <= j < |nodes| ==> nodes[j].wireNodeId != "")
    requires InvertsInto(WireByRaw(nodes), rawByWire)
    ensures RoundTrips(nodes, rawByWire) <==> DistinctWires(nodes)
  {
    if DistinctWires(nodes) {
      DistinctRoundTrips(nodes, rawByWire);
    }
    if RoundTrips(nodes, rawByWire) {
      RoundTripsDistinct(nodes, rawByWire);
    }
  }
}
