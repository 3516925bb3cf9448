/** Counting interest in monitored items (adapters/asyncua/subscribe.py, api/routes/subscriptions.py). */
module Interest {
  import opened Neutral
  import opened ElementIds
  import Subscriptions

  // ------------------------------------------------------------------ one session

  /** Interest per node, the node's monitored item, and the items alive at the backend. */
  datatype Session = Session(count: map<string, nat>, monitored: map<string, int>, live: map<int, string>)

  function CountOf(s: Session, node: string): nat {
    if node in s.count then s.count[node] else 0
  }

  function FirstTime(s: Session, nodes: seq<string>): seq<string> {
    if nodes == [] then []
    else if CountOf(s, nodes[0]) == 0 then [nodes[0]] + FirstTime(s, nodes[1..])
    else FirstTime(s, nodes[1..])
  }

  /** The backend created an item for each of these nodes. */
  function Monitor(s: Session, nodes: seq<string>, handles: seq<int>): Session
    requires |handles| == |nodes|
    decreases |nodes|
  {
    if nodes == [] then s else
      var n := |nodes| - 1;
      var before := Monitor(s, nodes[..n], handles[..n]);
      before.(monitored := before.monitored[nodes[n] := handles[n]], live := before.live[handles[n] := nodes[n]])
  }

  function CountUp(count: map<string, nat>, nodes: seq<string>): map<string, nat>
    decreases |nodes|
  {
    if nodes == [] then count else
      var n := nodes[|nodes| - 1];
      var before := CountUp(count, nodes[..|nodes| - 1]);
      before[n := (if n in before then before[n] else 0) + 1]
  }

  function Add(s: Session, nodes: seq<string>, handles: seq<int>): Session
    requires |handles| == |FirstTime(s, nodes)|
  {
    var s' := Monitor(s, FirstTime(s, nodes), handles);
    s'.(count := CountUp(s'.count, nodes))
  }

  /** One interest less; the last one takes the monitored item with it. */
  function RemoveOne(s: Session, node: string): Session {
    if CountOf(s, node) == 0 then s
    else if CountOf(s, node) > 1 then s.(count := s.count[node := s.count[node] - 1])
    else if node in s.monitored then Session(s.count - {node}, s.monitored - {node}, s.live - {s.monitored[node]})
    else s.(count := s.count - {node})
  }

  function Remove(s: Session, nodes: seq<string>): Session
    decreases |nodes|
  {
    if nodes == [] then s else RemoveOne(Remove(s, nodes[..|nodes| - 1]), nodes[|nodes| - 1])
  }

  /** What the backend grants: one new handle per node. */
  ghost predicate Grants(s: Session, nodes: seq<string>, handles: seq<int>) {
    |handles| == |FirstTime(s, nodes)| && NoRepeats(handles) && forall h :: h in handles ==> h !in s.live
  }

  class SubscriptionSession {
    var refcount: map<string, nat>
    var monitored: map<string, int>
    /** The backend's live items. */
    var live: map<int, string>

    function View(): Session
      reads this
    {
      Session(refcount, monitored, live)
    }

    constructor ()
      ensures View() == Session(map[], map[], map[])
    {
      refcount, monitored, live := map[], map[], map[];
    }

    /** `handles` is the backend's answer. */
    method AddMonitoredItems(nodes: seq<string>, handles: seq<int>)
      requires |handles| == |FirstTime(View(), nodes)|
      modifies this
      ensures View() == Add(old(View()), nodes, handles)
    {
      var firstTime := FirstTime(View(), nodes);
      for k := 0 to |firstTime|
        invariant View() == Monitor(old(View()), firstTime[..k], handles[..k])
        invariant refcount == old(refcount)
      {
        assert firstTime[..k + 1][..k] == firstTime[..k] && handles[..k + 1][..k] == handles[..k];
        live := live[handles[k] := firstTime[k]];
        monitored := monitored[firstTime[k] := handles[k]];
      }
      assert firstTime[..|firstTime|] == firstTime && handles[..|handles|] == handles;
      ghost var m, l := monitored, live;
      for k := 0 to |nodes|
        invariant refcount == CountUp(old(refcount), nodes[..k]) && monitored == m && live == l
      {
        assert nodes[..k + 1][..k] == nodes[..k];
        var n := nodes[k];
        refcount := refcount[n := (if n in refcount then refcount[n] else 0) + 1];
      }
      assert nodes[..|nodes|] == nodes;
    }

    method RemoveMonitoredItems(nodes: seq<string>)
      modifies this
      ensures View() == Remove(old(View()), nodes)
    {
      var toDrop: set<int> := {};
      for k := 0 to |nodes|
        invariant Session(refcount, monitored, live - toDrop) == Remove(old(View()), nodes[..k])
      {
        assert nodes[..k + 1][..k] == nodes[..k];
        var n := nodes[k];
        var count := if n in refcount then refcount[n] else 0;
        if count == 0 {
          continue;
        }
        if count - 1 == 0 {
          refcount := refcount - {n};
          if n in monitored {
            assert (live - toDrop) - {monitored[n]} == live - (toDrop + {monitored[n]});
            toDrop := toDrop + {monitored[n]};
            monitored := monitored - {n};
          }
        } else {
          refcount := refcount[n := count - 1];
        }
      }
      assert nodes[..|nodes|] == nodes;
      live := live - toDrop;
    }
  }

  // ------------------------------------------------------------------ what the session keeps

  /** Monitored are exactly the nodes counted, and the handles are exactly the live items. */
  ghost predicate Matched(s: Session) {
    && s.monitored.Keys == s.count.Keys
    && (forall n :: n in s.count ==> s.count[n] > 0)
    && (forall n :: n in s.monitored ==> s.monitored[n] in s.live && s.live[s.monitored[n]] == n)
    && (forall h :: h in s.live ==> s.live[h] in s.monitored && s.monitored[s.live[h]] == h)
  }

  function Times(nodes: seq<string>, node: string): nat {
    if nodes == [] then 0 else (if nodes[0] == node then 1 else 0) + Times(nodes[1..], node)
  }

  lemma {:induction false} TimesAppend(nodes: seq<string>, last: string, node: string)
    ensures Times(nodes + [last], node) == Times(nodes, node) + (if last == node then 1 else 0)
  {
    if nodes != [] {
      assert (nodes + [last])[1..] == nodes[1..] + [last];
      TimesAppend(nodes[1..], last, node);
    }
  }

  lemma {:induction false} CountUpExact(count: map<string, nat>, nodes: seq<string>, node: string)
    ensures var after := CountUp(count, nodes);
      && (node in after <==> node in count || Times(nodes, node) > 0)
      && (if node in after then after[node] else 0) == (if node in count then count[node] else 0) + Times(nodes, node)
    decreases |nodes|
  {
    if nodes != [] {
      var front, last := nodes[..|nodes| - 1], nodes[|nodes| - 1];
      assert nodes == front + [last];
      TimesAppend(front, last, node);
      CountUpExact(count, front, node);
    }
  }

  lemma {:induction false} RemoveCounts(s: Session, nodes: seq<string>, node: string)
    ensures var was, times := CountOf(s, node), Times(nodes, node);
      CountOf(Remove(s, nodes), node) == if was < times then 0 else was - times
    decreases |nodes|
  {
    if nodes != [] {
      var front, last := nodes[..|nodes| - 1], nodes[|nodes| - 1];
      assert nodes == front + [last];
      TimesAppend(front, last, node);
      RemoveCounts(s, front, node);
    }
  }

  lemma {:induction false} RemoveKeepsMatched(s: Session, nodes: seq<string>)
    requires Matched(s)
    ensures Matched(Remove(s, nodes))
    decreases |nodes|
  {
    if nodes != [] {
      RemoveKeepsMatched(s, nodes[..|nodes| - 1]);
    }
  }

  lemma {:induction false} FirstTimeExact(s: Session, nodes: seq<string>, node: string)
    ensures node in FirstTime(s, nodes) <==> node in nodes && CountOf(s, node) == 0
    ensures Times(FirstTime(s, nodes), node) == if CountOf(s, node) == 0 then Times(nodes, node) else 0
  {
    if nodes != [] {
      FirstTimeExact(s, nodes[1..], node);
      assert nodes == [nodes[0]] + nodes[1..];
      if CountOf(s, nodes[0]) == 0 {
        assert FirstTime(s, nodes)[1..] == FirstTime(s, nodes[1..]);
      }
    }
  }

  lemma {:induction false} TimesPositive(nodes: seq<string>, node: string)
    ensures Times(nodes, node) > 0 <==> node in nodes
  {
    if nodes != [] {
      TimesPositive(nodes[1..], node);
      assert nodes == [nodes[0]] + nodes[1..];
    }
  }

  ghost predicate OnceEach(nodes: seq<string>) {
    forall n :: Times(nodes, n) <= 1
  }

  lemma {:induction false} OnceEachIsNoRepeats(nodes: seq<string>)
    requires OnceEach(nodes)
    ensures NoRepeats(nodes)
  {
    if nodes != [] {
      forall n ensures Times(nodes[1..], n) <= 1 {
        assert Times(nodes, n) <= 1;
      }
      OnceEachIsNoRepeats(nodes[1..]);
      assert Times(nodes, nodes[0]) <= 1;
      TimesPositive(nodes[1..], nodes[0]);
      forall i, j | 0 <= i < j < |nodes| ensures nodes[i] != nodes[j] {
        assert nodes[j] == nodes[1..][j - 1] && (i > 0 ==> nodes[i] == nodes[1..][i - 1]);
      }
    }
  }

  /** Monitored nodes and live items, without the counts. */
  ghost predicate Paired(s: Session) {
    && (forall n :: n in s.monitored ==> s.monitored[n] in s.live && s.live[s.monitored[n]] == n)
    && (forall h :: h in s.live ==> s.live[h] in s.monitored && s.monitored[s.live[h]] == h)
  }

  lemma PairOne(s: Session, node: string, handle: int)
    requires Paired(s) && node !in s.monitored && handle !in s.live
    ensures Paired(s.(monitored := s.monitored[node := handle], live := s.live[handle := node]))
  {
  }

  lemma {:induction false} MonitorKeepsPaired(s: Session, nodes: seq<string>, handles: seq<int>)
    requires Paired(s) && |handles| == |nodes| && NoRepeats(nodes) && NoRepeats(handles)
    requires forall n :: n in nodes ==> n !in s.monitored
    requires forall h :: h in handles ==> h !in s.live
    ensures var after := Monitor(s, nodes, handles);
      && Paired(after) && after.count == s.count
      && after.monitored.Keys == s.monitored.Keys + ToSet(nodes)
      && after.live.Keys == s.live.Keys + ToSet(handles)
    decreases |nodes|
  {
    if nodes != [] {
      var n := |nodes| - 1;
      var before := Monitor(s, nodes[..n], handles[..n]);
      MonitorKeepsPaired(s, nodes[..n], handles[..n]);
      assert nodes == nodes[..n] + [nodes[n]] && handles == handles[..n] + [handles[n]];
      assert nodes[n] !in nodes[..n] && handles[n] !in handles[..n];
      PairOne(before, nodes[n], handles[n]);
    }
  }

  /** Adding distinct nodes gives each newly wanted one its own live item. */
  lemma AddKeepsMatched(s: Session, nodes: seq<string>, handles: seq<int>)
    requires Matched(s) && Grants(s, nodes, handles) && OnceEach(nodes)
    ensures Matched(Add(s, nodes, handles))
  {
    var first := FirstTime(s, nodes);
    forall n ensures Times(first, n) <= 1 && (n in first <==> n in nodes && CountOf(s, n) == 0) {
      FirstTimeExact(s, nodes, n);
      assert Times(nodes, n) <= 1;
    }
    OnceEachIsNoRepeats(first);
    MonitorKeepsPaired(s, first, handles);
    var after := Add(s, nodes, handles);
    forall n ensures n in after.count <==> n in after.monitored {
      CountUpExact(s.count, nodes, n);
      TimesPositive(nodes, n);
      assert n in ToSet(first) <==> n in first;
    }
    forall n | n in after.count ensures after.count[n] > 0 {
      CountUpExact(s.count, nodes, n);
    }
  }

  // ------------------------------------------------------------------ the routes, for one connection

  /** The node ids of one connection among these elementIds; ids without `!` are skipped. */
  function NodesFor(connection: string, elementIds: seq<string>): seq<string> {
    if elementIds == [] then [] else
      var ref := Parse(elementIds[0]);
      if ref.Some? && ref.value.connection == connection
      then [ref.value.nodeId] + NodesFor(connection, elementIds[1..])
      else NodesFor(connection, elementIds[1..])
  }

  lemma {:induction false} NodesForAppend(connection: string, elementIds: seq<string>, last: string)
    ensures NodesFor(connection, elementIds + [last]) == NodesFor(connection, elementIds) + NodesFor(connection, [last])
  {
    if elementIds == [] {
      assert elementIds + [last] == [last];
    } else {
      assert (elementIds + [last])[1..] == elementIds[1..] + [last];
      NodesForAppend(connection, elementIds[1..], last);
    }
  }

  /** The grouping of `_adapter_ref_change`: one upstream call per connection. */
  method GroupByConnection(elementIds: seq<string>) returns (byConnection: map<string, seq<string>>)
    ensures forall c :: c in byConnection <==> NodesFor(c, elementIds) != []
    ensures forall c :: c in byConnection ==> byConnection[c] == NodesFor(c, elementIds)
  {
    byConnection := map[];
    for k := 0 to |elementIds|
      invariant forall c :: (if c in byConnection then byConnection[c] else []) == NodesFor(c, elementIds[..k])
      invariant forall c :: c in byConnection ==> byConnection[c] != []
    {
      var ref := Parse(elementIds[k]);
      assert elementIds[..k + 1] == elementIds[..k] + [elementIds[k]];
      forall c ensures NodesFor(c, elementIds[..k + 1])
                    == NodesFor(c, elementIds[..k])
                        + (if ref.Some? && ref.value.connection == c then [ref.value.nodeId] else []) {
        NodesForAppend(c, elementIds[..k], elementIds[k]);
      }
      if ref.None? {
        continue;
      }
      var c := ref.value.connection;
      byConnection := byConnection[c := (if c in byConnection then byConnection[c] else []) + [ref.value.nodeId]];
    }
    assert elementIds[..|elementIds|] == elementIds;
  }

  function Canonical(elementIds: seq<string>): seq<string> {
    seq(|elementIds|, i requires 0 <= i < |elementIds| => CanonicalElementId(elementIds[i]))
  }

  /** Canonicalization has nothing left to do on this id. */
  predicate Settled(elementId: string) {
    CanonicalElementId(elementId) == elementId
  }

  predicate Ours(connection: string, elementId: string) {
    Parse(elementId).Some? && Parse(elementId).value.connection == connection
  }

  /** Canonicalization has nothing left to do on the ids of this connection. */
  predicate SettledHere(connection: string, elementIds: seq<string>) {
    forall i :: 0 <= i < |elementIds| && Ours(connection, elementIds[i]) ==> Settled(elementIds[i])
  }

  lemma SettledIsNode(connection: string, elementId: string, node: string)
    requires '!' !in connection && (Ours(connection, elementId) ==> Settled(elementId))
    ensures Parse(elementId) == Some(ElementRef(connection, node)) <==> elementId == ElementRef(connection, node).AsId()
  {
    AsIdParsesIff(ElementRef(connection, node));
    if elementId == ElementRef(connection, node).AsId() {
      AsIdInjective(ElementRef(connection, Canonicalize(node)), ElementRef(connection, node));
    }
  }

  /** Among settled ids a node is asked for as often as its elementId occurs. */
  lemma {:induction false} NodeTimes(connection: string, elementIds: seq<string>, node: string)
    requires '!' !in connection && SettledHere(connection, elementIds)
    ensures Times(NodesFor(connection, elementIds), node) == Times(elementIds, ElementRef(connection, node).AsId())
  {
    if elementIds != [] {
      SettledIsNode(connection, elementIds[0], node);
      NodeTimes(connection, elementIds[1..], node);
      if Ours(connection, elementIds[0]) {
        assert NodesFor(connection, elementIds)[1..] == NodesFor(connection, elementIds[1..]);
      }
    }
  }

  lemma {:induction false} NodesForExact(connection: string, elementIds: seq<string>, n: string)
    ensures n in NodesFor(connection, elementIds)
       <==> exists e :: e in elementIds && Parse(e) == Some(ElementRef(connection, n))
  {
    if elementIds != [] {
      NodesForExact(connection, elementIds[1..], n);
      assert elementIds == [elementIds[0]] + elementIds[1..];
    }
  }

  /** The longest id of this connection that is not settled. */
  lemma {:induction false} LongestUnsettled(connection: string, elementIds: seq<string>) returns (e: string)
    requires !SettledHere(connection, elementIds)
    ensures e in elementIds && Ours(connection, e) && !Settled(e)
    ensures forall x :: x in elementIds && Ours(connection, x) && !Settled(x) ==> |x| <= |e|
  {
    assert elementIds == [elementIds[0]] + elementIds[1..];
    if SettledHere(connection, elementIds[1..]) {
      e := elementIds[0];
      assert forall x :: x in elementIds[1..] && Ours(connection, x) ==> Settled(x);
    } else {
      e := LongestUnsettled(connection, elementIds[1..]);
      if Ours(connection, elementIds[0]) && !Settled(elementIds[0]) && |elementIds[0]| > |e| {
        e := elementIds[0];
      }
    }
  }

  /** Parsing an id of this connection that is not settled makes its node shorter. */
  lemma OursParses(connection: string, elementId: string)
    requires Ours(connection, elementId)
    ensures '!' !in connection && |connection| < |elementId|
    ensures elementId == ElementRef(connection, elementId[|connection| + 1..]).AsId()
    ensures Parse(elementId).value.nodeId == Canonicalize(elementId[|connection| + 1..])
    ensures Settled(elementId) <==> Canonicalize(elementId[|connection| + 1..]) == elementId[|connection| + 1..]
  {
    var raw := Cut(elementId, '!').value.1;
    assert elementId == connection + "!" + raw;
    assert elementId[|connection| + 1..] == raw;
    assert CanonicalElementId(elementId)[|connection| + 1..] == Canonicalize(raw);
  }

  /** Among ids that are not all settled, some element has a node that nobody asks for: the longest one's. */
  lemma UnsettledIsMissed(connection: string, elementIds: seq<string>) returns (n: string)
    requires !SettledHere(connection, elementIds)
    ensures ElementRef(connection, n).AsId() in elementIds && n !in NodesFor(connection, elementIds)
  {
    var e := LongestUnsettled(connection, elementIds);
    OursParses(connection, e);
    n := e[|connection| + 1..];
    NodesForExact(connection, elementIds, n);
    forall x | x in elementIds ensures Parse(x) != Some(ElementRef(connection, n)) {
      if Parse(x) == Some(ElementRef(connection, n)) {
        OursParses(connection, x);
        CanonicalizeShrinks(x[|connection| + 1..]);
        assert false;
      }
    }
  }

  // ------------------------------------------------------------------ runs

  /** What each live subscription holds, and the session of the connection looked at. */
  datatype World = World(subs: map<string, set<string>>, session: Session)

  datatype Act =
    | Open(id: string)
    | Register(id: string, elementIds: seq<string>, handles: seq<int>)
    | Unregister(id: string, elementIds: seq<string>)
    | Close(id: string, order: seq<string>)

  /** The nodes an act adds to, or removes from, the connection's interest. */
  function Newly(w: World, connection: string, act: Act): seq<string>
    requires act.Register? && act.id in w.subs
  {
    NodesFor(connection, Subscriptions.Missing(w.subs[act.id], Canonical(act.elementIds)))
  }

  function Gone(w: World, connection: string, act: Act): seq<string>
    requires act.Unregister? && act.id in w.subs
  {
    NodesFor(connection, Subscriptions.Present(w.subs[act.id], Canonical(act.elementIds)))
  }

  /** One request, an unknown subscription being refused; `order` is how the removed set was listed. */
  function Next(w: World, connection: string, act: Act): World
    requires act.Register? && act.id in w.subs ==> |act.handles| == |FirstTime(w.session, Newly(w, connection, act))|
  {
    match act
    case Open(id) => w.(subs := w.subs[id := {}])
    case Register(id, eids, handles) =>
      if id !in w.subs then w else
        World(w.subs[id := w.subs[id] + ToSet(Canonical(eids))], Add(w.session, Newly(w, connection, act), handles))
    case Unregister(id, eids) =>
      if id !in w.subs then w else
        World(w.subs[id := w.subs[id] - ToSet(Canonical(eids))], Remove(w.session, Gone(w, connection, act)))
    case Close(id, order) =>
      if id !in w.subs then w else World(w.subs - {id}, Remove(w.session, NodesFor(connection, order)))
  }

  ghost function Holders(subs: map<string, set<string>>, elementId: string): set<string> {
    set id | id in subs && elementId in subs[id]
  }

  ghost predicate AgreesAt(w: World, connection: string, node: string) {
    CountOf(w.session, node) == |Holders(w.subs, ElementRef(connection, node).AsId())|
  }

  ghost predicate CountsAgree(w: World, connection: string) {
    forall n :: AgreesAt(w, connection, n)
  }

  lemma {:induction false} MissingTimes(elements: set<string>, ids: seq<string>, e: string)
    ensures Times(Subscriptions.Missing(elements, ids), e) == if e in elements then 0 else Times(ids, e)
    ensures forall x :: x in Subscriptions.Missing(elements, ids) ==> x in ids
  {
    if ids != [] {
      MissingTimes(elements, ids[1..], e);
      var rest := Subscriptions.Missing(elements, ids[1..]);
      assert Subscriptions.Missing(elements, ids) == (if ids[0] !in elements then [ids[0]] + rest else rest);
      assert ids[0] !in elements ==> ([ids[0]] + rest)[1..] == rest;
      assert ids == [ids[0]] + ids[1..];
    }
  }

  lemma {:induction false} PresentTimes(elements: set<string>, ids: seq<string>, e: string)
    ensures Times(Subscriptions.Present(elements, ids), e) == if e in elements then Times(ids, e) else 0
    ensures forall x :: x in Subscriptions.Present(elements, ids) ==> x in ids && x in elements
  {
    if ids != [] {
      PresentTimes(elements, ids[1..], e);
      var rest := Subscriptions.Present(elements, ids[1..]);
      assert Subscriptions.Present(elements, ids) == (if ids[0] in elements then [ids[0]] + rest else rest);
      assert ids[0] in elements ==> ([ids[0]] + rest)[1..] == rest;
      assert ids == [ids[0]] + ids[1..];
    }
  }

  lemma {:induction false} MonitorKeepsCount(s: Session, nodes: seq<string>, handles: seq<int>)
    requires |handles| == |nodes|
    ensures Monitor(s, nodes, handles).count == s.count
    decreases |nodes|
  {
    if nodes != [] {
      MonitorKeepsCount(s, nodes[..|nodes| - 1], handles[..|nodes| - 1]);
    }
  }

  lemma AddCounts(s: Session, nodes: seq<string>, handles: seq<int>, node: string)
    requires |handles| == |FirstTime(s, nodes)|
    ensures CountOf(Add(s, nodes, handles), node) == CountOf(s, node) + Times(nodes, node)
  {
    MonitorKeepsCount(s, FirstTime(s, nodes), handles);
    CountUpExact(s.count, nodes, node);
  }

  lemma HoldersAdd(subs: map<string, set<string>>, id: string, more: set<string>, e: string)
    requires id in subs
    ensures var after := subs[id := subs[id] + more];
      |Holders(after, e)| == |Holders(subs, e)| + (if e in more && e !in subs[id] then 1 else 0)
  {
    var after := subs[id := subs[id] + more];
    if e in more && e !in subs[id] {
      assert Holders(after, e) == Holders(subs, e) + {id};
    } else {
      assert Holders(after, e) == Holders(subs, e);
    }
  }

  /** `after` differs from `subs` only in that `id` is gone or holds less. */
  ghost predicate Shrunk(subs: map<string, set<string>>, after: map<string, set<string>>, id: string) {
    && id in subs && (id in after ==> after[id] <= subs[id])
    && forall other :: other != id ==>
        (other in after <==> other in subs) && (other in subs ==> after[other] == subs[other])
  }

  lemma HoldersDrop(subs: map<string, set<string>>, after: map<string, set<string>>, id: string, e: string)
    requires Shrunk(subs, after, id)
    ensures var lost := e in subs[id] && (id !in after || e !in after[id]);
      |Holders(after, e)| == |Holders(subs, e)| - (if lost then 1 else 0)
  {
    var was, now := Holders(subs, e), Holders(after, e);
    assert forall other :: other != id ==> (other in was <==> other in now);
    if e in subs[id] && (id !in after || e !in after[id]) {
      assert was == now + {id};
    } else {
      assert id in was <==> id in now;
      assert was == now;
    }
  }

  /** The ids an act newly registers, or removes. */
  function AddedIds(w: World, act: Act): seq<string>
    requires act.Register? && act.id in w.subs
  {
    Subscriptions.Missing(w.subs[act.id], Canonical(act.elementIds))
  }

  function RemovedIds(w: World, act: Act): seq<string>
    requires act.Unregister? && act.id in w.subs
  {
    Subscriptions.Present(w.subs[act.id], Canonical(act.elementIds))
  }

  /** What an act does to a node: interest grows by its places in the list, holders by one. */
  lemma RegisterCounts(w: World, connection: string, act: Act, n: string)
    requires act.Register? && act.id in w.subs
    requires |act.handles| == |FirstTime(w.session, Newly(w, connection, act))|
    ensures var after, e := Next(w, connection, act), ElementRef(connection, n).AsId();
      && CountOf(after.session, n) == CountOf(w.session, n) + Times(Newly(w, connection, act), n)
      && |Holders(after.subs, e)| == |Holders(w.subs, e)| + (if e in AddedIds(w, act) then 1 else 0)
  {
    var ids, held, e := Canonical(act.elementIds), w.subs[act.id], ElementRef(connection, n).AsId();
    MissingTimes(held, ids, e);
    TimesPositive(ids, e);
    TimesPositive(AddedIds(w, act), e);
    AddCounts(w.session, Newly(w, connection, act), act.handles, n);
    HoldersAdd(w.subs, act.id, ToSet(ids), e);
  }

  /** Registering keeps the counts true exactly when no node is newly added twice and canonicalizing once has
      settled every new id of the connection. */
  lemma RegisterAgreesIff(w: World, connection: string, act: Act)
    requires '!' !in connection && act.Register? && act.id in w.subs && CountsAgree(w, connection)
    requires |act.handles| == |FirstTime(w.session, Newly(w, connection, act))|
    ensures CountsAgree(Next(w, connection, act), connection)
       <==> OnceEach(Newly(w, connection, act)) && SettledHere(connection, AddedIds(w, act))
  {
    var newly, ids, after := Newly(w, connection, act), AddedIds(w, act), Next(w, connection, act);
    forall n ensures AgreesAt(after, connection, n)
                <==> Times(newly, n) == if ElementRef(connection, n).AsId() in ids then 1 else 0 {
      assert AgreesAt(w, connection, n);
      RegisterCounts(w, connection, act, n);
    }
    if !SettledHere(connection, ids) {
      var n := UnsettledIsMissed(connection, ids);
      TimesPositive(newly, n);
      assert !AgreesAt(after, connection, n);
    } else {
      forall n ensures AgreesAt(after, connection, n) <==> Times(newly, n) <= 1 {
        NodeTimes(connection, ids, n);
        TimesPositive(ids, ElementRef(connection, n).AsId());
      }
      if CountsAgree(after, connection) {
        forall n ensures Times(newly, n) <= 1 {
          assert AgreesAt(after, connection, n);
        }
      }
    }
  }

  /** Nothing is removed twice, unless the one removing it is its last holder. */
  ghost predicate OnceOrLast(s: Session, nodes: seq<string>) {
    forall n :: Times(nodes, n) <= 1 || CountOf(s, n) == 1
  }

  lemma UnregisterCounts(w: World, connection: string, act: Act, n: string)
    requires act.Unregister? && act.id in w.subs
    ensures var after, e := Next(w, connection, act), ElementRef(connection, n).AsId();
      var was, times := CountOf(w.session, n), Times(Gone(w, connection, act), n);
      && CountOf(after.session, n) == (if was < times then 0 else was - times)
      && |Holders(after.subs, e)| == |Holders(w.subs, e)| - (if e in RemovedIds(w, act) then 1 else 0)
      && (e in RemovedIds(w, act) ==> |Holders(w.subs, e)| > 0)
  {
    var ids, held, e := Canonical(act.elementIds), w.subs[act.id], ElementRef(connection, n).AsId();
    PresentTimes(held, ids, e);
    TimesPositive(ids, e);
    TimesPositive(RemovedIds(w, act), e);
    RemoveCounts(w.session, Gone(w, connection, act), n);
    HoldersDrop(w.subs, Next(w, connection, act).subs, act.id, e);
    assert e in held ==> act.id in Holders(w.subs, e);
  }

  /** Unregistering keeps them true exactly when a node is removed twice only by its last holder and every removed
      id of the connection is settled. */
  lemma UnregisterAgreesIff(w: World, connection: string, act: Act)
    requires '!' !in connection && act.Unregister? && act.id in w.subs && CountsAgree(w, connection)
    ensures CountsAgree(Next(w, connection, act), connection)
       <==> OnceOrLast(w.session, Gone(w, connection, act)) && SettledHere(connection, RemovedIds(w, act))
  {
    var gone, ids, after := Gone(w, connection, act), RemovedIds(w, act), Next(w, connection, act);
    if !SettledHere(connection, ids) {
      var n := UnsettledIsMissed(connection, ids);
      TimesPositive(gone, n);
      assert AgreesAt(w, connection, n);
      UnregisterCounts(w, connection, act, n);
      assert !AgreesAt(after, connection, n);
    } else {
      forall n ensures AgreesAt(after, connection, n) <==> Times(gone, n) <= 1 || CountOf(w.session, n) == 1 {
        assert AgreesAt(w, connection, n);
        UnregisterCounts(w, connection, act, n);
        NodeTimes(connection, ids, n);
        TimesPositive(ids, ElementRef(connection, n).AsId());
      }
      if CountsAgree(after, connection) {
        forall n ensures Times(gone, n) <= 1 || CountOf(w.session, n) == 1 {
          assert AgreesAt(after, connection, n);
        }
      }
    }
  }

  lemma {:induction false} NoRepeatsTimes(nodes: seq<string>, n: string)
    requires NoRepeats(nodes)
    ensures Times(nodes, n) == if n in nodes then 1 else 0
  {
    if nodes != [] {
      assert nodes == [nodes[0]] + nodes[1..];
      assert forall k :: 0 <= k < |nodes[1..]| ==> nodes[1..][k] == nodes[k + 1];
      assert nodes[0] !in nodes[1..];
      NoRepeatsTimes(nodes[1..], n);
    }
  }

  lemma CloseAgrees(w: World, connection: string, act: Act)
    requires '!' !in connection && act.Close? && act.id in w.subs && CountsAgree(w, connection)
    requires NoRepeats(act.order) && ToSet(act.order) == w.subs[act.id] && SettledHere(connection, act.order)
    ensures CountsAgree(Next(w, connection, act), connection)
  {
    var after := Next(w, connection, act);
    forall n ensures AgreesAt(after, connection, n) {
      assert AgreesAt(w, connection, n);
      var e := ElementRef(connection, n).AsId();
      NodeTimes(connection, act.order, n);
      NoRepeatsTimes(act.order, e);
      assert e in act.order <==> e in ToSet(act.order);
      RemoveCounts(w.session, NodesFor(connection, act.order), n);
      HoldersDrop(w.subs, after.subs, act.id, e);
    }
  }

  // ------------------------------------------------------------------ every run

  /** New ids settle when canonicalized, nothing is added or removed twice, the backend's handles are new,
      a new subscription has a new id, and a closed one lists what it held. */
  ghost predicate Legal(w: World, connection: string, act: Act) {
    match act
    case Open(id) => id !in w.subs
    case Register(id, eids, handles) =>
      id in w.subs ==>
        && SettledHere(connection, AddedIds(w, act))
        && OnceEach(Newly(w, connection, act))
        && Grants(w.session, Newly(w, connection, act), handles)
    case Unregister(id, eids) =>
      id in w.subs ==> OnceOrLast(w.session, Gone(w, connection, act))
    case Close(id, order) => id in w.subs ==> NoRepeats(order) && ToSet(order) == w.subs[id]
  }

  ghost predicate Agrees(w: World, connection: string) {
    && Matched(w.session) && CountsAgree(w, connection)
    && forall id, e :: id in w.subs && e in w.subs[id] && Ours(connection, e) ==> Settled(e)
  }

  lemma AddedSettled(w: World, connection: string, act: Act)
    requires act.Register? && act.id in w.subs && SettledHere(connection, AddedIds(w, act))
    ensures forall e :: e in Canonical(act.elementIds) && Ours(connection, e) ==> e in w.subs[act.id] || Settled(e)
  {
    forall e | e in Canonical(act.elementIds) && e !in w.subs[act.id] ensures e in AddedIds(w, act) {
      MissingTimes(w.subs[act.id], Canonical(act.elementIds), e);
      TimesPositive(Canonical(act.elementIds), e);
      TimesPositive(AddedIds(w, act), e);
    }
  }

  lemma NextAgrees(w: World, connection: string, act: Act)
    requires '!' !in connection && Agrees(w, connection) && Legal(w, connection, act)
    ensures Agrees(Next(w, connection, act), connection)
  {
    match act
    case Open(id) =>
      forall n ensures AgreesAt(Next(w, connection, act), connection, n) {
        assert AgreesAt(w, connection, n);
        var e := ElementRef(connection, n).AsId();
        assert Holders(w.subs[id := {}], e) == Holders(w.subs, e);
      }
    case Register(id, eids, handles) =>
      if id in w.subs {
        RegisterAgreesIff(w, connection, act);
        AddedSettled(w, connection, act);
        AddKeepsMatched(w.session, Newly(w, connection, act), handles);
      }
    case Unregister(id, eids) =>
      if id in w.subs {
        PresentTimes(w.subs[id], Canonical(eids), "");
        UnregisterAgreesIff(w, connection, act);
        RemoveKeepsMatched(w.session, Gone(w, connection, act));
      }
    case Close(id, order) =>
      if id in w.subs {
        forall i | 0 <= i < |order| ensures order[i] in w.subs[id] {
          assert order[i] in ToSet(order);
        }
        CloseAgrees(w, connection, act);
        RemoveKeepsMatched(w.session, NodesFor(connection, order));
      }
  }

  const START := World(map[], Session(map[], map[], map[]))

  /** The worlds a run passes through, from the start on. */
  ghost predicate IsRun(worlds: seq<World>, acts: seq<Act>, connection: string) {
    && |worlds| == |acts| + 1 && worlds[0] == START
    && forall k :: 0 <= k < |acts| ==>
         Legal(worlds[k], connection, acts[k]) && worlds[k + 1] == Next(worlds[k], connection, acts[k])
  }

  /** At every point of every run the session's count of a node is the number of live subscriptions that
      hold it, the monitored nodes are those with a positive count, and the handles are the live items. */
  lemma {:induction false} RunAgrees(worlds: seq<World>, acts: seq<Act>, connection: string, k: nat)
    requires '!' !in connection && IsRun(worlds, acts, connection) && k < |worlds|
    ensures Agrees(worlds[k], connection)
  {
    if k == 0 {
      forall n ensures AgreesAt(START, connection, n) {
        assert Holders(START.subs, ElementRef(connection, n).AsId()) == {};
      }
    } else {
      RunAgrees(worlds, acts, connection, k - 1);
      NextAgrees(worlds[k - 1], connection, acts[k - 1]);
    }
  }

  lemma TwiceUnfolds(x: string)
    ensures Subscriptions.Missing({}, [x, x]) == [x, x]
    ensures FirstTime(Session(map[], map[], map[]), [x, x]) == [x, x]
    ensures Times([x, x], x) == 2
  {
    assert [x, x][1..] == [x] && [x][1..] == [];
    assert Subscriptions.Missing({}, [x]) == [x] + Subscriptions.Missing({}, []);
    assert FirstTime(Session(map[], map[], map[]), [x]) == [x] + FirstTime(Session(map[], map[], map[]), []);
    assert [x] + [x] == [x, x];
    assert Times([x], x) == 1;
  }

  /** A repeated id in one request does break the count: one subscription holds the node, interest is two. */
  lemma RepeatBreaksCount(node: string, handles: seq<int>)
    requires Settled("c!" + node) && |handles| == 2
    ensures var w := World(map["s" := {}], Session(map[], map[], map[]));
      var act := Register("s", ["c!" + node, "c!" + node], handles);
      && CountsAgree(w, "c")
      && |FirstTime(w.session, Newly(w, "c", act))| == 2
      && !CountsAgree(Next(w, "c", act), "c")
  {
    var w, e := World(map["s" := {}], Session(map[], map[], map[])), "c!" + node;
    var act := Register("s", [e, e], handles);
    assert e == ElementRef("c", node).AsId();
    SettledIsNode("c", e, node);
    assert Parse(e) == Some(ElementRef("c", node));
    assert Canonical([e, e]) == [e, e] && [e, e][1..] == [e];
    TwiceUnfolds(e);
    assert Subscriptions.Missing({}, [e, e]) == [e, e];
    assert NodesFor("c", [e, e]) == [node] + NodesFor("c", [e]) && NodesFor("c", [e]) == [node] + NodesFor("c", []);
    assert [node] + [node] == [node, node];
    TwiceUnfolds(node);
    assert FirstTime(w.session, [node, node]) == [node, node];
    forall n ensures AgreesAt(w, "c", n) {
      assert Holders(w.subs, ElementRef("c", n).AsId()) == {};
    }
    RegisterAgreesIff(w, "c", act);
  }

  /** Canonicalizing an elementId settles it exactly when canonicalizing its NodeId does. */
  lemma SettledOnceIff(connection: string, raw: string)
    requires '!' !in connection
    ensures var e := CanonicalElementId(ElementRef(connection, raw).AsId());
      && Parse(e) == Some(ElementRef(connection, Canonicalize(Canonicalize(raw))))
      && (Settled(e) <==> Canonicalize(Canonicalize(raw)) == Canonicalize(raw))
  {
    var once, twice := ElementRef(connection, Canonicalize(raw)),
        ElementRef(connection, Canonicalize(Canonicalize(raw)));
    AsIdParsesIff(ElementRef(connection, raw));
    AsIdParsesIff(once);
    if once.AsId() == twice.AsId() {
      AsIdInjective(once, twice);
    }
  }

  /** The first registration of one element. */
  lemma FirstRegistration(id: string, node: string, handle: int)
    requires Parse(CanonicalElementId(id)) == Some(ElementRef("c", node))
    ensures var w, act := World(map["s" := {}], Session(map[], map[], map[])), Register("s", [id], [handle]);
      && CountsAgree(w, "c") && AddedIds(w, act) == [CanonicalElementId(id)]
      && Newly(w, "c", act) == [node] && |FirstTime(w.session, [node])| == 1
  {
    var w, e := World(map["s" := {}], Session(map[], map[], map[])), CanonicalElementId(id);
    assert Canonical([id]) == [e] && [e][1..] == [] && [node][1..] == [];
    assert Subscriptions.Missing({}, [e]) == [e] + Subscriptions.Missing({}, []);
    assert NodesFor("c", [e]) == [node] + NodesFor("c", []);
    forall n ensures AgreesAt(w, "c", n) {
      assert Holders(w.subs, ElementRef("c", n).AsId()) == {};
    }
  }

  /** So `ns=0;ns=0;i=5` is counted for nobody. */
  lemma UnsettledId(handle: int)
    ensures var w, act := World(map["s" := {}], Session(map[], map[], map[])),
                          Register("s", [ElementRef("c", "ns=0;ns=0;i=5").AsId()], [handle]);
      && CountsAgree(w, "c") && |FirstTime(w.session, Newly(w, "c", act))| == 1
      && !CountsAgree(Next(w, "c", act), "c")
  {
    var w, id := World(map["s" := {}], Session(map[], map[], map[])), ElementRef("c", "ns=0;ns=0;i=5").AsId();
    var act, e := Register("s", [id], [handle]), CanonicalElementId(id);
    CanonicalizeTwiceExample();
    SettledOnceIff("c", "ns=0;ns=0;i=5");
    FirstRegistration(id, "i=5", handle);
    assert !SettledHere("c", [e]) by {
      assert [e][0] == e && Ours("c", e) && !Settled(e);
    }
    RegisterAgreesIff(w, "c", act);
  }

  // ------------------------------------------------------------------ the routes on the real manager

  function Holdings(subs: map<string, Subscriptions.Sub>): map<string, set<string>> {
    map id | id in subs :: subs[id].elements
  }

  function WorldOf(manager: Subscriptions.SubscriptionManager, session: SubscriptionSession): World
    reads manager, session
  {
    World(Holdings(manager.subs), session.View())
  }

  /** The session's share of `_adapter_ref_change`. */
  method AdapterRefChange(
    session: SubscriptionSession, connection: string, added: seq<string>, removed: seq<string>, handles: seq<int>)
    requires |handles| == |FirstTime(session.View(), NodesFor(connection, added))|
    modifies session
    ensures session.View() == Remove(Add(old(session.View()), NodesFor(connection, added), handles),
        NodesFor(connection, removed))
  {
    var byConnectionAdd := GroupByConnection(added);
    var byConnectionRemove := GroupByConnection(removed);
    if connection in byConnectionAdd {
      session.AddMonitoredItems(byConnectionAdd[connection], handles);
    }
    if connection in byConnectionRemove {
      session.RemoveMonitoredItems(byConnectionRemove[connection]);
    }
  }

  method RegisterRoute(
    manager: Subscriptions.SubscriptionManager, session: SubscriptionSession, connection: string,
    id: string, elementIds: seq<string>, handles: seq<int>)
    returns (found: bool)
    requires id in manager.subs ==>
      |handles| == |FirstTime(session.View(), Newly(WorldOf(manager, session), connection,
          Register(id, elementIds, handles)))|
    modifies manager, session
    ensures found <==> id in old(manager.subs)
    ensures WorldOf(manager, session) == Next(old(WorldOf(manager, session)), connection,
        Register(id, elementIds, handles))
  {
    var newly := manager.RegisterElements(id, Canonical(elementIds));
    if newly.None? {
      return false;
    }
    AdapterRefChange(session, connection, newly.value, [], handles);
    return true;
  }

  method UnregisterRoute(
    manager: Subscriptions.SubscriptionManager, session: SubscriptionSession, connection: string,
    id: string, elementIds: seq<string>)
    returns (found: bool)
    modifies manager, session
    ensures found <==> id in old(manager.subs)
    ensures WorldOf(manager, session) == Next(old(WorldOf(manager, session)), connection, Unregister(id, elementIds))
  {
    var removed := manager.UnregisterElements(id, Canonical(elementIds));
    if removed.None? {
      return false;
    }
    AdapterRefChange(session, connection, [], removed.value, []);
    return true;
  }

  /** `order` is the list the route makes of the removed set. */
  method DeleteRoute(
    manager: Subscriptions.SubscriptionManager, session: SubscriptionSession, connection: string,
    id: string, order: seq<string>)
    requires Subscriptions.Wired(manager.View())
    requires ToSet(order) == if id in manager.subs then manager.subs[id].elements else {}
    modifies manager, session
    ensures WorldOf(manager, session) == Next(old(WorldOf(manager, session)), connection, Close(id, order))
  {
    ghost var held := manager.subs;
    var elements := manager.DeleteSubscription(id);
    assert order != [] ==> order[0] in ToSet(order);
    assert Holdings(held - {id}) == Holdings(held) - {id};
    AdapterRefChange(session, connection, [], order, []);
  }
}
