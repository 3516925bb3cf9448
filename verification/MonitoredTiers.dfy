/** One connection's monitored items per publishing interval (adapters/asyncua/upstream.py). */
module MonitoredTiers {
  import opened Neutral
  import opened ElementIds
  import Interest

  /** The publishing intervals with a server subscription, the item handle per interval and raw node id,
      the items alive at the server, and the index from wire ids to raw ids. */
  datatype Tiers = Tiers(
    subs: set<int>, monitored: map<int, map<string, int>>, live: map<int, map<int, string>>,
        rawByWire: map<string, string>)

  function Raw(rawByWire: map<string, string>, id: string): string {
    if id in rawByWire then rawByWire[id] else id
  }

  function RawAll(rawByWire: map<string, string>, ids: seq<string>): (raws: seq<string>)
    ensures |raws| == |ids| && forall i :: 0 <= i < |ids| ==> raws[i] == Raw(rawByWire, ids[i])
  {
    seq(|ids|, i requires 0 <= i < |ids| => Raw(rawByWire, ids[i]))
  }

  function Bucket(t: Tiers, pub: int): map<string, int> {
    if pub in t.monitored then t.monitored[pub] else map[]
  }

  function Items(t: Tiers, pub: int): map<int, string> {
    if pub in t.live then t.live[pub] else map[]
  }

  function NewIds(bucket: map<string, int>, raws: seq<string>): seq<string> {
    if raws == [] then []
    else if raws[0] !in bucket then [raws[0]] + NewIds(bucket, raws[1..])
    else NewIds(bucket, raws[1..])
  }

  /** Each node gets the handle at its place; a later one overwrites. */
  function Noted(bucket: map<string, int>, nodes: seq<string>, handles: seq<int>): map<string, int>
    requires |handles| == |nodes|
    decreases |nodes|
  {
    if nodes == [] then bucket else
      var n := |nodes| - 1;
      Noted(bucket, nodes[..n], handles[..n])[nodes[n] := handles[n]]
  }

  function Created(live: map<int, string>, nodes: seq<string>, handles: seq<int>): map<int, string>
    requires |handles| == |nodes|
    decreases |nodes|
  {
    if nodes == [] then live else
      var n := |nodes| - 1;
      Created(live, nodes[..n], handles[..n])[handles[n] := nodes[n]]
  }

  function Wishes(t: Tiers, ids: seq<string>, pub: int): seq<string> {
    NewIds(Bucket(t, pub), RawAll(t.rawByWire, ids))
  }

  function Add(t: Tiers, ids: seq<string>, pub: int, handles: seq<int>): Tiers
    requires |handles| == |Wishes(t, ids, pub)|
  {
    AddNodes(t, Wishes(t, ids, pub), pub, handles)
  }

  function AddNodes(t: Tiers, nodes: seq<string>, pub: int, handles: seq<int>): Tiers
    requires |handles| == |nodes|
  {
    var subs, live := t.subs + {pub}, t.live[pub := if pub in t.subs then Items(t, pub) else map[]];
    if nodes == [] then t.(subs := subs, live := live) else
      t.(subs := subs, monitored := t.monitored[pub := Noted(Bucket(t, pub), nodes, handles)],
         live := live[pub := Created(live[pub], nodes, handles)])
  }

  function Handles(bucket: map<string, int>, gone: set<string>): set<int> {
    set n | n in bucket && n in gone :: bucket[n]
  }

  function Remove(t: Tiers, ids: seq<string>, pub: int): Tiers {
    var bucket := Bucket(t, pub);
    if pub !in t.subs || bucket == map[] then t else
      var gone := ToSet(RawAll(t.rawByWire, ids));
      var rest := bucket - gone;
      if rest == map[] then Tiers(t.subs - {pub}, t.monitored - {pub}, t.live - {pub}, t.rawByWire) else
        t.(monitored := t.monitored[pub := rest], live := t.live[pub := Items(t, pub) - Handles(bucket, gone)])
  }

  /** The session is gone and its items with it. */
  function Disconnect(t: Tiers): Tiers {
    Tiers({}, map[], map[], t.rawByWire)
  }

  class ConnectionBinding {
    var subsByPublish: set<int>
    var monitored: map<int, map<string, int>>
    var live: map<int, map<int, string>>
    var rawByWire: map<string, string>

    function View(): Tiers
      reads this
    {
      Tiers(subsByPublish, monitored, live, rawByWire)
    }

    constructor ()
      ensures View() == Tiers({}, map[], map[], map[])
    {
      subsByPublish, monitored, live, rawByWire := {}, map[], map[], map[];
    }

    method EnsureSubscription(pub: int)
      modifies this`subsByPublish, this`live
      ensures subsByPublish == old(subsByPublish) + {pub}
      ensures live == old(live)[pub := if pub in old(subsByPublish) then Items(old(View()), pub) else map[]]
    {
      if pub in subsByPublish {
        live := live[pub := if pub in live then live[pub] else map[]];
        return;
      }
      subsByPublish := subsByPublish + {pub};
      live := live[pub := map[]];
    }

    /** `handles` is the server's answer for the nodes not monitored yet in this tier. */
    method AddMonitored(ids: seq<string>, pub: int, handles: seq<int>)
      requires |handles| == |Wishes(View(), ids, pub)|
      modifies this
      ensures View() == Add(old(View()), ids, pub, handles)
    {
      ghost var was := View();
      var index := rawByWire;
      var raws := seq(|ids|, i requires 0 <= i < |ids| => if ids[i] in index then index[ids[i]] else ids[i]);
      assert raws == RawAll(index, ids);
      EnsureSubscription(pub);
      var bucket := if pub in monitored then monitored[pub] else map[];
      var nodes := NewIds(bucket, raws);
      if nodes == [] {
        return;
      }
      var items := live[pub];
      bucket, items := NoteItems(bucket, items, nodes, handles);
      live := live[pub := items];
      monitored := monitored[pub := bucket];
      assert live == Add(was, ids, pub, handles).live;
    }

    method RemoveMonitored(ids: seq<string>, pub: int)
      modifies this
      ensures View() == Remove(old(View()), ids, pub)
    {
      var index := rawByWire;
      var raws := seq(|ids|, i requires 0 <= i < |ids| => if ids[i] in index then index[ids[i]] else ids[i]);
      assert raws == RawAll(index, ids);
      if pub !in subsByPublish || pub !in monitored || monitored[pub] == map[] {
        return;
      }
      var bucket, drop := PopItems(monitored[pub], raws);
      if bucket == map[] {
        monitored := monitored - {pub};
        live := live - {pub};
        subsByPublish := subsByPublish - {pub};
        return;
      }
      live := live[pub := (if pub in live then live[pub] else map[]) - drop];
      monitored := monitored[pub := bucket];
    }

    method OnDisconnected()
      modifies this
      ensures View() == Disconnect(old(View()))
    {
      subsByPublish, monitored, live := {}, map[], map[];
    }

    /** After a browse: the new index, then every wanted element again at the default interval. */
    method OnConnected(index: map<string, string>, wanted: seq<string>, pub: int, handles: seq<int>)
      requires |handles| == |Wishes(View().(rawByWire := index), wanted, pub)|
      modifies this
      ensures View() == if wanted == [] then old(View()).(rawByWire := index)
                        else Add(old(View()).(rawByWire := index), wanted, pub, handles)
    {
      rawByWire := index;
      if wanted != [] {
        AddMonitored(wanted, pub, handles);
      }
    }
  }

  /** The loop that files each handle under its node. */
  method NoteItems(bucket0: map<string, int>, items0: map<int, string>, nodes: seq<string>, handles: seq<int>)
    returns (bucket: map<string, int>, items: map<int, string>)
    requires |handles| == |nodes|
    ensures bucket == Noted(bucket0, nodes, handles) && items == Created(items0, nodes, handles)
  {
    bucket, items := bucket0, items0;
    for k := 0 to |nodes|
      invariant bucket == Noted(bucket0, nodes[..k], handles[..k]) && items == Created(items0, nodes[..k], handles[..k])
    {
      assert nodes[..k + 1][..k] == nodes[..k] && handles[..k + 1][..k] == handles[..k];
      items := items[handles[k] := nodes[k]];
      bucket := bucket[nodes[k] := handles[k]];
    }
    assert nodes[..|nodes|] == nodes && handles[..|handles|] == handles;
  }

  /** The loop that pops the nodes and collects their handles. */
  method PopItems(bucket0: map<string, int>, raws: seq<string>) returns (bucket: map<string, int>, drop: set<int>)
    ensures bucket == bucket0 - ToSet(raws) && drop == Handles(bucket0, ToSet(raws))
  {
    bucket, drop := bucket0, {};
    for k := 0 to |raws|
      invariant bucket == bucket0 - ToSet(raws[..k])
      invariant drop == Handles(bucket0, ToSet(raws[..k]))
    {
      assert raws[..k + 1] == raws[..k] + [raws[k]];
      DropOne(bucket0, ToSet(raws[..k]), raws[k]);
      assert ToSet(raws[..k + 1]) == ToSet(raws[..k]) + {raws[k]};
      if raws[k] in bucket {
        drop := drop + {bucket[raws[k]]};
        bucket := bucket - {raws[k]};
      }
    }
    assert raws[..|raws|] == raws;
  }

  lemma DropOne(bucket: map<string, int>, gone: set<string>, n: string)
    ensures Handles(bucket, gone + {n}) == Handles(bucket, gone) + (if n in bucket then {bucket[n]} else {})
    ensures (bucket - gone) - {n} == bucket - (gone + {n})
  {
  }

  // ------------------------------------------------------------------ buckets and server agree

  ghost predicate Mirrors(bucket: map<string, int>, live: map<int, string>) {
    && (forall n :: n in bucket ==> bucket[n] in live && live[bucket[n]] == n)
    && (forall h :: h in live ==> live[h] in bucket && bucket[live[h]] == h)
  }

  /** Every tier's bucket is the server's live items, and no tier with items is left empty. */
  ghost predicate Valid(t: Tiers) {
    && t.monitored.Keys <= t.subs && t.live.Keys == t.subs
    && (forall pub :: pub in t.subs ==> Mirrors(Bucket(t, pub), t.live[pub]))
    && (forall pub :: pub in t.monitored ==> t.monitored[pub] != map[])
  }

  lemma {:induction false} NewIdsExact(bucket: map<string, int>, raws: seq<string>)
    ensures forall n :: n in NewIds(bucket, raws) <==> n in raws && n !in bucket
  {
    if raws != [] {
      NewIdsExact(bucket, raws[1..]);
      assert raws == [raws[0]] + raws[1..];
    }
  }

  lemma {:induction false} NotedKeys(bucket: map<string, int>, nodes: seq<string>, handles: seq<int>)
    requires |handles| == |nodes|
    ensures Noted(bucket, nodes, handles).Keys == bucket.Keys + ToSet(nodes)
    decreases |nodes|
  {
    if nodes != [] {
      var n := |nodes| - 1;
      NotedKeys(bucket, nodes[..n], handles[..n]);
      assert nodes == nodes[..n] + [nodes[n]];
    }
  }

  lemma {:induction false} CreatedKeys(live: map<int, string>, nodes: seq<string>, handles: seq<int>)
    requires |handles| == |nodes|
    ensures Created(live, nodes, handles).Keys == live.Keys + ToSet(handles)
    decreases |nodes|
  {
    if nodes != [] {
      var n := |nodes| - 1;
      CreatedKeys(live, nodes[..n], handles[..n]);
      assert handles == handles[..n] + [handles[n]];
    }
  }

  lemma {:induction false} NotedMirrors(bucket: map<string, int>, live: map<int, string>, nodes: seq<string>,
      handles: seq<int>)
    requires |handles| == |nodes| && NoRepeats(nodes) && NoRepeats(handles) && Mirrors(bucket, live)
    requires forall n :: n in nodes ==> n !in bucket
    requires forall h :: h in handles ==> h !in live
    ensures Mirrors(Noted(bucket, nodes, handles), Created(live, nodes, handles))
    decreases |nodes|
  {
    if nodes != [] {
      var n := |nodes| - 1;
      NotedMirrors(bucket, live, nodes[..n], handles[..n]);
      NotedKeys(bucket, nodes[..n], handles[..n]);
      CreatedKeys(live, nodes[..n], handles[..n]);
      assert nodes == nodes[..n] + [nodes[n]] && handles == handles[..n] + [handles[n]];
      assert nodes[n] !in nodes[..n] && handles[n] !in handles[..n];
    }
  }

  /** The handles the server grants are new in their subscription. */
  ghost predicate NewHandles(t: Tiers, ids: seq<string>, pub: int, handles: seq<int>) {
    |handles| == |Wishes(t, ids, pub)| && NoRepeats(handles) && forall h :: h in handles ==> h !in Items(t, pub)
  }

  lemma AddMirrors(t: Tiers, nodes: seq<string>, pub: int, handles: seq<int>)
    requires |handles| == |nodes| && NoRepeats(nodes) && NoRepeats(handles) && Mirrors(Bucket(t, pub), Items(t, pub))
    requires forall n :: n in nodes ==> n !in Bucket(t, pub)
    requires forall h :: h in handles ==> h !in Items(t, pub)
    requires pub !in t.subs ==> Items(t, pub) == map[]
    ensures var after := AddNodes(t, nodes, pub, handles);
      Mirrors(Bucket(after, pub), after.live[pub]) && (nodes != [] ==> Bucket(after, pub) != map[])
  {
    NotedMirrors(Bucket(t, pub), Items(t, pub), nodes, handles);
    NotedKeys(Bucket(t, pub), nodes, handles);
    assert nodes != [] ==> nodes[0] in ToSet(nodes);
  }

  lemma AddKeepsValid(t: Tiers, ids: seq<string>, pub: int, handles: seq<int>)
    requires Valid(t) && NewHandles(t, ids, pub, handles) && NoRepeats(Wishes(t, ids, pub))
    ensures Valid(Add(t, ids, pub, handles))
  {
    NewIdsExact(Bucket(t, pub), RawAll(t.rawByWire, ids));
    AddMirrors(t, Wishes(t, ids, pub), pub, handles);
    NodesKeepValid(t, Wishes(t, ids, pub), pub, handles);
  }

  lemma NodesKeepValid(t: Tiers, nodes: seq<string>, pub: int, handles: seq<int>)
    requires Valid(t) && |handles| == |nodes|
    requires var after := AddNodes(t, nodes, pub, handles);
      Mirrors(Bucket(after, pub), after.live[pub]) && (nodes != [] ==> Bucket(after, pub) != map[])
    ensures Valid(AddNodes(t, nodes, pub, handles))
  {
    var after := AddNodes(t, nodes, pub, handles);
    forall p | p in after.subs && p != pub ensures Mirrors(Bucket(after, p), after.live[p]) {
      assert Mirrors(Bucket(t, p), t.live[p]);
    }
  }

  lemma {:induction false} CreatedHolds(live: map<int, string>, nodes: seq<string>, handles: seq<int>, k: nat)
    requires |handles| == |nodes| && NoRepeats(handles) && k < |nodes|
    ensures handles[k] in Created(live, nodes, handles) && Created(live, nodes, handles)[handles[k]] == nodes[k]
    decreases |nodes|
  {
    if k < |nodes| - 1 {
      CreatedHolds(live, nodes[..|nodes| - 1], handles[..|nodes| - 1], k);
    }
  }

  lemma MirroredOnce(bucket: map<string, int>, live: map<int, string>, nodes: seq<string>, handles: seq<int>)
    requires |handles| == |nodes| && NoRepeats(handles)
    requires Mirrors(Noted(bucket, nodes, handles), Created(live, nodes, handles))
    ensures NoRepeats(nodes)
  {
    forall i, j | 0 <= i < j < |nodes| ensures nodes[i] != nodes[j] {
      CreatedHolds(live, nodes, handles, i);
      CreatedHolds(live, nodes, handles, j);
      assert handles[i] != handles[j];
    }
  }

  /** Adding keeps the buckets true exactly when no new node comes up twice after translation;
      a repeated one leaves an item at the server that no bucket knows. */
  lemma AddValidIff(t: Tiers, ids: seq<string>, pub: int, handles: seq<int>)
    requires Valid(t) && NewHandles(t, ids, pub, handles)
    ensures Valid(Add(t, ids, pub, handles)) <==> NoRepeats(Wishes(t, ids, pub))
  {
    var nodes, after := Wishes(t, ids, pub), Add(t, ids, pub, handles);
    if NoRepeats(nodes) {
      AddKeepsValid(t, ids, pub, handles);
    }
    if Valid(after) && nodes != [] {
      assert Mirrors(Bucket(after, pub), after.live[pub]);
      assert after.live[pub] == Created(Items(t, pub), nodes, handles);
      MirroredOnce(Bucket(t, pub), Items(t, pub), nodes, handles);
    }
  }

  lemma RestMirrors(bucket: map<string, int>, live: map<int, string>, gone: set<string>)
    requires Mirrors(bucket, live)
    ensures Mirrors(bucket - gone, live - Handles(bucket, gone))
  {
    forall n | n in bucket && n !in gone ensures bucket[n] !in Handles(bucket, gone) {
      forall m | m in bucket && m in gone ensures bucket[m] != bucket[n] {
        assert live[bucket[m]] == m && live[bucket[n]] == n;
      }
    }
  }

  lemma RemoveKeepsValid(t: Tiers, ids: seq<string>, pub: int)
    requires Valid(t)
    ensures Valid(Remove(t, ids, pub))
    ensures Bucket(t, pub) != map[] && Bucket(Remove(t, ids, pub), pub) == map[] ==> pub !in Remove(t, ids, pub).subs
  {
    var after := Remove(t, ids, pub);
    if pub in t.subs {
      RestMirrors(Bucket(t, pub), t.live[pub], ToSet(RawAll(t.rawByWire, ids)));
    }
    forall p | p in after.subs ensures Mirrors(Bucket(after, p), after.live[p]) {
      assert p != pub ==> Mirrors(Bucket(t, p), t.live[p]);
    }
  }

  // ------------------------------------------------------------------ whole runs

  /** What happens to a binding, one call after another: items added or removed in a tier, the session lost, or a
      (re)connect that replaces the index and adds what is wanted. */
  datatype Step =
    | AddItems(ids: seq<string>, pub: int, handles: seq<int>)
    | RemoveItems(ids: seq<string>, pub: int)
    | Lost
    | Connected(index: map<string, string>, ids: seq<string>, pub: int, handles: seq<int>)

  /** The state an adding step adds to. */
  function Reindexed(t: Tiers, step: Step): Tiers {
    if step.Connected? then t.(rawByWire := step.index) else t
  }

  predicate Adds(step: Step) {
    step.AddItems? || (step.Connected? && step.ids != [])
  }

  /** The server's handles are new in their subscription. */
  ghost predicate Granted(t: Tiers, step: Step) {
    Adds(step) ==> NewHandles(Reindexed(t, step), step.ids, step.pub, step.handles)
  }

  /** No node that is new in its tier comes up twice after translation. */
  ghost predicate WishesOnce(t: Tiers, step: Step) {
    Adds(step) ==> NoRepeats(Wishes(Reindexed(t, step), step.ids, step.pub))
  }

  ghost function Next(t: Tiers, step: Step): Tiers
    requires Granted(t, step)
  {
    if Adds(step) then Add(Reindexed(t, step), step.ids, step.pub, step.handles)
    else if step.RemoveItems? then Remove(t, step.ids, step.pub)
    else if step.Lost? then Disconnect(t)
    else Reindexed(t, step)
  }

  const NOTHING := Tiers({}, map[], map[], map[])

  /** The states a binding passes through, from the start on. */
  ghost predicate IsRun(states: seq<Tiers>, steps: seq<Step>) {
    && |states| == |steps| + 1 && states[0] == NOTHING
    && forall k :: 0 <= k < |steps| ==> Granted(states[k], steps[k]) && states[k + 1] == Next(states[k], steps[k])
  }

  lemma IndexKeepsValid(t: Tiers, index: map<string, string>)
    ensures Valid(t.(rawByWire := index)) <==> Valid(t)
  {
    var u := t.(rawByWire := index);
    assert forall pub :: Bucket(u, pub) == Bucket(t, pub);
  }

  lemma NextValidIff(t: Tiers, step: Step)
    requires Valid(t) && Granted(t, step)
    ensures Valid(Next(t, step)) <==> WishesOnce(t, step)
  {
    if Adds(step) {
      if step.Connected? {
        IndexKeepsValid(t, step.index);
      }
      AddValidIff(Reindexed(t, step), step.ids, step.pub, step.handles);
    } else if step.RemoveItems? {
      RemoveKeepsValid(t, step.ids, step.pub);
    } else if step.Connected? {
      IndexKeepsValid(t, step.index);
    }
  }

  lemma {:induction false} RunKeepsValid(states: seq<Tiers>, steps: seq<Step>, k: nat)
    requires IsRun(states, steps) && k < |states|
    requires forall j :: 0 <= j < |steps| ==> WishesOnce(states[j], steps[j])
    ensures Valid(states[k])
  {
    if k > 0 {
      RunKeepsValid(states, steps, k - 1);
      NextValidIff(states[k - 1], steps[k - 1]);
    }
  }

  /** On every run, each tier's bucket is the server's live items in every state exactly when no step wishes
      for a new node twice. */
  lemma RunValidIff(states: seq<Tiers>, steps: seq<Step>)
    requires IsRun(states, steps)
    ensures (forall k :: 0 <= k < |states| ==> Valid(states[k]))
       <==> forall j :: 0 <= j < |steps| ==> WishesOnce(states[j], steps[j])
  {
    if forall j :: 0 <= j < |steps| ==> WishesOnce(states[j], steps[j]) {
      forall k | 0 <= k < |states| ensures Valid(states[k]) {
        RunKeepsValid(states, steps, k);
      }
    }
    if forall k :: 0 <= k < |states| ==> Valid(states[k]) {
      forall j | 0 <= j < |steps| ensures WishesOnce(states[j], steps[j]) {
        NextValidIff(states[j], steps[j]);
        assert Valid(states[j + 1]);
      }
    }
  }

  lemma {:induction false} NewIdsOfNone(raws: seq<string>)
    ensures NewIds(map[], raws) == raws
  {
    if raws != [] {
      NewIdsOfNone(raws[1..]);
    }
  }

  /** A request that repeats an id leaves an item at the server that no bucket knows. */
  lemma RepeatLeaksItem(x: string, pub: int, h: int, g: int)
    requires h != g
    ensures var step := AddItems([x, x], pub, [h, g]);
      Granted(NOTHING, step) && !WishesOnce(NOTHING, step) && !Valid(Next(NOTHING, step))
  {
    var step := AddItems([x, x], pub, [h, g]);
    assert RawAll(map[], [x, x]) == [x, x];
    NewIdsOfNone([x, x]);
    assert Wishes(NOTHING, [x, x], pub) == [x, x];
    assert Valid(NOTHING);
    AddValidIff(NOTHING, [x, x], pub, [h, g]);
  }

  // ------------------------------------------------------------------ what clients want

  /** `wanted_node_ids`: the nodes of this connection that live subscriptions hold. */
  function WantedNodes(subs: map<string, set<string>>, connection: string): set<string> {
    set id, e | id in subs && e in subs[id] && Parse(e).Some? && Parse(e).value.connection == connection
        :: Parse(e).value.nodeId
  }

  function Image(rawByWire: map<string, string>, ids: set<string>): set<string> {
    set n | n in ids :: Raw(rawByWire, n)
  }

  lemma ImageOfSeq(rawByWire: map<string, string>, ids: seq<string>)
    ensures ToSet(RawAll(rawByWire, ids)) == Image(rawByWire, ToSet(ids))
  {
    var raws := RawAll(rawByWire, ids);
    forall x | x in ToSet(raws) ensures x in Image(rawByWire, ToSet(ids)) {
      var i :| 0 <= i < |raws| && raws[i] == x;
      assert ids[i] in ToSet(ids);
    }
    forall n | n in ToSet(ids) ensures Raw(rawByWire, n) in ToSet(raws) {
      var i :| 0 <= i < |ids| && ids[i] == n;
      assert raws[i] in raws;
    }
  }

  /** The index gives this node for the id, or has no such wire id and the node is the id itself. */
  ghost predicate Means(index: map<string, string>, id: string, node: string) {
    (id in index ==> node == index[id]) && (id !in index ==> node == id)
  }

  ghost predicate Monitors(t: Tiers, pub: int, node: string) {
    pub in t.monitored && node in t.monitored[pub]
  }

  /** The tier monitors exactly what is wanted: the nodes that the wanted ids mean. */
  ghost predicate Serves(t: Tiers, pub: int, wanted: set<string>) {
    forall x :: Monitors(t, pub, x) <==> exists w :: w in wanted && Means(t.rawByWire, w, x)
  }

  lemma InImage(index: map<string, string>, ids: set<string>, x: string)
    ensures x in Image(index, ids) <==> exists w :: w in ids && Means(index, w, x)
  {
    forall w ensures Means(index, w, x) <==> x == Raw(index, w) {
    }
  }

  lemma ServesImage(t: Tiers, pub: int, wanted: set<string>)
    ensures Serves(t, pub, wanted) <==> Bucket(t, pub).Keys == Image(t.rawByWire, wanted)
  {
    forall x ensures x in Bucket(t, pub).Keys <==> Monitors(t, pub, x) {
    }
    forall x ensures x in Image(t.rawByWire, wanted) <==> exists w :: w in wanted && Means(t.rawByWire, w, x) {
      InImage(t.rawByWire, wanted, x);
    }
    if Serves(t, pub, wanted) {
      forall x ensures x in Bucket(t, pub).Keys <==> x in Image(t.rawByWire, wanted) {
        assert Monitors(t, pub, x) <==> exists w :: w in wanted && Means(t.rawByWire, w, x);
      }
    }
  }

  lemma AddKeys(t: Tiers, ids: seq<string>, pub: int, handles: seq<int>)
    requires |handles| == |Wishes(t, ids, pub)|
    ensures Bucket(Add(t, ids, pub, handles), pub).Keys == Bucket(t, pub).Keys + Image(t.rawByWire, ToSet(ids))
  {
    NewIdsExact(Bucket(t, pub), RawAll(t.rawByWire, ids));
    NotedKeys(Bucket(t, pub), Wishes(t, ids, pub), handles);
    ImageOfSeq(t.rawByWire, ids);
  }

  /** After an add the tier monitors what it did and the nodes that the ids mean. */
  lemma AddMonitors(t: Tiers, ids: seq<string>, pub: int, handles: seq<int>, x: string)
    requires |handles| == |Wishes(t, ids, pub)|
    ensures var after := Add(t, ids, pub, handles);
      Monitors(after, pub, x) <==> Monitors(t, pub, x) || exists w :: w in ids && Means(t.rawByWire, w, x)
  {
    AddKeys(t, ids, pub, handles);
    InImage(t.rawByWire, ToSet(ids), x);
    var after := Add(t, ids, pub, handles);
    assert x in Bucket(after, pub).Keys <==> Monitors(after, pub, x);
    assert forall w :: w in ToSet(ids) <==> w in ids;
  }

  /** The server is asked to monitor the nodes that the ids mean. */
  lemma AddAsksFor(t: Tiers, ids: seq<string>, pub: int, handles: seq<int>, k: nat)
    requires NewHandles(t, ids, pub, handles) && k < |handles|
    ensures var after := Add(t, ids, pub, handles);
      pub in after.live && handles[k] in after.live[pub]
        && exists w :: w in ids && Means(t.rawByWire, w, after.live[pub][handles[k]])
  {
    var nodes, raws := Wishes(t, ids, pub), RawAll(t.rawByWire, ids);
    CreatedHolds(if pub in t.subs then Items(t, pub) else map[], nodes, handles, k);
    NewIdsExact(Bucket(t, pub), raws);
    assert nodes[k] in raws;
    var i :| 0 <= i < |raws| && raws[i] == nodes[k];
    assert ids[i] in ids && Means(t.rawByWire, ids[i], nodes[k]);
  }

  /** A removal takes away exactly the nodes that the ids mean, and their items. */
  lemma RemoveUnmonitors(t: Tiers, ids: seq<string>, pub: int, x: string)
    requires Valid(t)
    ensures var after := Remove(t, ids, pub);
      Monitors(after, pub, x) <==> (Monitors(t, pub, x) && !exists w :: w in ids && Means(t.rawByWire, w, x))
  {
    RemoveKeys(t, ids, pub);
    InImage(t.rawByWire, ToSet(ids), x);
    var after := Remove(t, ids, pub);
    assert x in Bucket(after, pub).Keys <==> Monitors(after, pub, x);
    assert forall w :: w in ToSet(ids) <==> w in ids;
  }

  /** An item goes exactly when its node does. */
  lemma RemoveDropsItems(t: Tiers, ids: seq<string>, pub: int, h: int)
    requires Valid(t) && pub in t.live && h in t.live[pub]
    ensures var after := Remove(t, ids, pub);
      (pub in after.live && h in after.live[pub])
        <==> Monitors(after, pub, t.live[pub][h])
  {
    RemoveKeepsValid(t, ids, pub);
    var after := Remove(t, ids, pub);
    assert Mirrors(Bucket(t, pub), t.live[pub]);
    if pub in after.subs {
      assert Mirrors(Bucket(after, pub), after.live[pub]);
    }
  }

  lemma RemoveKeys(t: Tiers, ids: seq<string>, pub: int)
    requires Valid(t)
    ensures Bucket(Remove(t, ids, pub), pub).Keys == Bucket(t, pub).Keys - Image(t.rawByWire, ToSet(ids))
  {
    ImageOfSeq(t.rawByWire, ids);
  }

  ghost predicate Injective(rawByWire: map<string, string>, ids: set<string>) {
    forall m, n, x :: m in ids && n in ids && Means(rawByWire, m, x) && Means(rawByWire, n, x) ==> m == n
  }

  lemma InjectiveRaw(rawByWire: map<string, string>, ids: set<string>)
    ensures Injective(rawByWire, ids)
       <==> forall m, n :: m in ids && n in ids && Raw(rawByWire, m) == Raw(rawByWire, n) ==> m == n
  {
    assert forall m :: Means(rawByWire, m, Raw(rawByWire, m));
    assert forall m, x :: Means(rawByWire, m, x) ==> x == Raw(rawByWire, m);
  }

  /** Distinct ids translate to distinct nodes exactly when the index is injective on them. */
  lemma RawsDifferIff(rawByWire: map<string, string>, ids: seq<string>)
    requires NoRepeats(ids)
    ensures NoRepeats(RawAll(rawByWire, ids)) <==> Injective(rawByWire, ToSet(ids))
  {
    var raws := RawAll(rawByWire, ids);
    InjectiveRaw(rawByWire, ToSet(ids));
    if NoRepeats(raws) {
      forall m, n | m in ToSet(ids) && n in ToSet(ids) && Raw(rawByWire, m) == Raw(rawByWire, n) ensures m == n {
        var i :| 0 <= i < |ids| && ids[i] == m;
        var j :| 0 <= j < |ids| && ids[j] == n;
        assert raws[i] == raws[j];
      }
    }
    if Injective(rawByWire, ToSet(ids)) {
      forall i, j | 0 <= i < j < |ids| ensures raws[i] != raws[j] {
        assert ids[i] in ToSet(ids) && ids[j] in ToSet(ids) && ids[i] != ids[j];
      }
    }
  }

  /** After a loss and a reconnect, with no call under way at the loss, the default tier serves exactly the nodes that
      live subscriptions want on this connection and no other tier is left; and its handles are the server's live
      items exactly when the new index translates no two of those nodes alike. */
  lemma ReconnectRestores(t: Tiers, subs: map<string, set<string>>, connection: string,
                          index: map<string, string>, wanted: seq<string>, pub: int, handles: seq<int>)
    requires NoRepeats(wanted) && ToSet(wanted) == WantedNodes(subs, connection)
    requires Granted(Disconnect(t), Connected(index, wanted, pub, handles))
    ensures var up := Next(Disconnect(t), Connected(index, wanted, pub, handles));
      && Serves(up, pub, WantedNodes(subs, connection)) && (forall p :: p in up.subs ==> p == pub)
      && (Valid(up) <==> Injective(index, WantedNodes(subs, connection)))
  {
    ConnectedValidIff(t, index, wanted, pub, handles);
    ConnectedServes(t, index, wanted, pub, handles);
  }

  lemma ConnectedServes(t: Tiers, index: map<string, string>, wanted: seq<string>, pub: int, handles: seq<int>)
    requires Granted(Disconnect(t), Connected(index, wanted, pub, handles))
    ensures var up := Next(Disconnect(t), Connected(index, wanted, pub, handles));
      Serves(up, pub, ToSet(wanted)) && forall p :: p in up.subs ==> p == pub
  {
    var blank := Disconnect(t).(rawByWire := index);
    if wanted == [] {
      assert Serves(blank, pub, {});
    } else {
      AddKeys(blank, wanted, pub, handles);
      ServesImage(Add(blank, wanted, pub, handles), pub, ToSet(wanted));
    }
  }

  lemma ConnectedValidIff(t: Tiers, index: map<string, string>, wanted: seq<string>, pub: int, handles: seq<int>)
    requires NoRepeats(wanted) && Granted(Disconnect(t), Connected(index, wanted, pub, handles))
    ensures Valid(Next(Disconnect(t), Connected(index, wanted, pub, handles))) <==> Injective(index, ToSet(wanted))
  {
    NextValidIff(Disconnect(t), Connected(index, wanted, pub, handles));
    NewIdsOfNone(RawAll(index, wanted));
    RawsDifferIff(index, wanted);
  }

  /** Adding what one more registration wants keeps the tier serving all that is wanted. */
  lemma AddServes(t: Tiers, ids: seq<string>, pub: int, handles: seq<int>, wanted: set<string>)
    requires |handles| == |Wishes(t, ids, pub)| && Serves(t, pub, wanted)
    ensures Serves(Add(t, ids, pub, handles), pub, wanted + ToSet(ids))
  {
    AddKeys(t, ids, pub, handles);
    ServesImage(t, pub, wanted);
    ServesImage(Add(t, ids, pub, handles), pub, wanted + ToSet(ids));
    assert Image(t.rawByWire, wanted + ToSet(ids)) == Image(t.rawByWire, wanted) + Image(t.rawByWire, ToSet(ids));
  }

  // ------------------------------------------------------------------ no counting here

  lemma ImageMinus(rawByWire: map<string, string>, all: set<string>, some: set<string>)
    requires Injective(rawByWire, all) && some <= all
    ensures Image(rawByWire, all) - Image(rawByWire, some) == Image(rawByWire, all - some)
  {
    InjectiveRaw(rawByWire, all);
  }

  /** Removing nodes that went out of some registration leaves the tier serving what is still wanted
      exactly when none of them is wanted by anybody else: the binding does not count interest. */
  lemma RemoveServesIff(t: Tiers, nodes: seq<string>, pub: int, was: set<string>, now: set<string>)
    requires Valid(t) && Serves(t, pub, was) && Injective(t.rawByWire, was)
    requires now <= was && ToSet(nodes) <= was && was - now <= ToSet(nodes)
    ensures Serves(Remove(t, nodes, pub), pub, now) <==> ToSet(nodes) !! now
  {
    RemoveKeys(t, nodes, pub);
    ImageMinus(t.rawByWire, was, ToSet(nodes));
    ServesImage(t, pub, was);
    ServesImage(Remove(t, nodes, pub), pub, now);
    if ToSet(nodes) !! now {
      assert was - ToSet(nodes) == now;
    } else {
      var n :| n in ToSet(nodes) && n in now;
      assert Raw(t.rawByWire, n) in Image(t.rawByWire, now);
      assert Raw(t.rawByWire, n) !in Image(t.rawByWire, was - ToSet(nodes));
    }
  }

  /** An unregistration by one subscription therefore keeps the tier right exactly when
      no other live subscription, and no other element, wants one of the removed nodes. */
  lemma UnregisterServesIff(
    t: Tiers, pub: int, subs: map<string, set<string>>, connection: string, id: string, removed: seq<string>)
    requires id in subs && ToSet(removed) <= subs[id]
    requires Valid(t) && Serves(t, pub, WantedNodes(subs, connection))
    requires Injective(t.rawByWire, WantedNodes(subs, connection))
    ensures var now := WantedNodes(subs[id := subs[id] - ToSet(removed)], connection);
      var nodes := Interest.NodesFor(connection, removed);
      Serves(Remove(t, nodes, pub), pub, now) <==> ToSet(nodes) !! now
  {
    var after := subs[id := subs[id] - ToSet(removed)];
    var was, now := WantedNodes(subs, connection), WantedNodes(after, connection);
    var nodes := Interest.NodesFor(connection, removed);
    forall n | n in ToSet(nodes) ensures n in was {
      Interest.NodesForExact(connection, removed, n);
      var e :| e in removed && Parse(e) == Some(ElementRef(connection, n));
      assert e in ToSet(removed) && e in subs[id];
    }
    forall n | n in was && n !in now ensures n in ToSet(nodes) {
      var other, e :| other in subs && e in subs[other] && Parse(e) == Some(ElementRef(connection, n));
      assert !(other in after && e in after[other]);
      assert e in removed;
      Interest.NodesForExact(connection, removed, n);
    }
    forall n | n in now ensures n in was {
      var other, e :| other in after && e in after[other] && Parse(e) == Some(ElementRef(connection, n));
      assert e in subs[other];
    }
    RemoveServesIff(t, nodes, pub, was, now);
  }

  /** Two subscriptions want a node; when one lets it go, the tier stops serving the other. */
  lemma SharedNodeIsDropped(n: string, pub: int, h: int)
    ensures var connection, e := "c", ElementRef("c", n).AsId();
      var subs, t := map["a" := {e}, "b" := {e}], Tiers({pub}, map[pub := map[n := h]], map[pub := map[h := n]], map[]);
      var after := subs["a" := subs["a"] - {e}];
      Canonicalize(n) == n ==>
        && Valid(t) && Serves(t, pub, WantedNodes(subs, connection))
        && !Serves(Remove(t, Interest.NodesFor(connection, [e]), pub), pub, WantedNodes(after, connection))
  {
    var connection, e := "c", ElementRef("c", n).AsId();
    var subs, t := map["a" := {e}, "b" := {e}], Tiers({pub}, map[pub := map[n := h]], map[pub := map[h := n]], map[]);
    var after := subs["a" := subs["a"] - {e}];
    if Canonicalize(n) == n {
      AsIdParsesIff(ElementRef("c", n));
      assert "a" in subs && e in subs["a"] && "b" in after && e in after["b"];
      assert WantedNodes(subs, connection) == {n} && WantedNodes(after, connection) == {n};
      ServesImage(t, pub, {n});
      assert Image(map[], {n}) == {n};
      assert ToSet([e]) == {e};
      Interest.NodesForExact(connection, [e], n);
      UnregisterServesIff(t, pub, subs, connection, "a", [e]);
      assert n in ToSet(Interest.NodesFor(connection, [e]));
    }
  }
}
