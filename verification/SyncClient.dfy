/** The v1 client's cursor over a subscription (i3x/client.py). */
module SyncClient {
  import opened Neutral
  import opened Samples
  import opened Subscriptions

  class I3XClient {
    /** Highest sequence number seen per subscription. */
    var syncSeq: map<string, nat>

    constructor ()
      ensures syncSeq == map[]
    {
      syncSeq := map[];
    }

    function Cursor(id: string): Option<nat>
      reads this
    {
      if id in syncSeq then Some(syncSeq[id]) else None
    }

    /** Take in the items of one sync, or of one stream event: all are handed on, and the cursor follows. */
    method ParseStreamItems(id: string, raw: seq<Item>) returns (items: seq<Item>)
      modifies this
      ensures items == raw
      ensures Cursor(id) == Advance(old(Cursor(id)), raw)
      ensures forall other :: other != id ==> Cursor(other) == old(Cursor(other))
    {
      items := [];
      for k := 0 to |raw|
        invariant items == raw[..k]
        invariant Advance(Cursor(id), raw[k..]) == Advance(old(Cursor(id)), raw)
        invariant forall other :: other != id ==> Cursor(other) == old(Cursor(other))
      {
        var seen := raw[k].sequenceNumber;
        assert raw[k..][0] == raw[k] && raw[k..][1..] == raw[k + 1..];
        if id !in syncSeq || seen > syncSeq[id] {
          syncSeq := syncSeq[id := seen];
        }
        items := items + [raw[k]];
      }
    }

    /** Ask the server from the cursor on. The answer's items come back and move the cursor; what it said about
        dropped ones does not. None is the error for an unknown subscription. */
    method Sync(manager: SubscriptionManager, id: string) returns (items: Option<seq<Item>>)
      modifies this, manager
      ensures manager.View() == Apply(old(manager.View()), manager.ringSize, Op.Sync(id))
      ensures items.Some? <==> id in old(manager.subs)
      ensures items.Some? ==>
        && items.value == SyncItems(old(manager.subs)[id], AsInt(old(Cursor(id))))
        && Cursor(id) == Advance(old(Cursor(id)), items.value)
      ensures items.None? ==> Cursor(id) == old(Cursor(id))
      ensures forall other :: other != id ==> Cursor(other) == old(Cursor(other))
    {
      var result := manager.SyncSubscription(id, AsInt(Cursor(id)));
      if result.None? {
        return None;
      }
      var got := ParseStreamItems(id, result.value.0);
      items := Some(got);
    }
  }

  function Advance(cursor: Option<nat>, items: seq<Item>): Option<nat>
    decreases |items|
  {
    if items == [] then cursor else
      var seen := items[0].sequenceNumber;
      Advance(if cursor.None? || seen > cursor.value then Some(seen) else cursor, items[1..])
  }

  // ------------------------------------------------------------------ one client, any interleaving

  /** What happens after a subscription was created: its only syncing client asks, or anything else. */
  datatype Event = ClientSync | Server(op: Op)

  /** Nobody else syncs, deletes or creates this subscription. */
  predicate Tame(events: seq<Event>, id: string) {
    forall e :: e in events && e.Server? ==> e.op != Create(id) && e.op != Delete(id) && e.op != Sync(id)
  }

  function Ops(events: seq<Event>, id: string): seq<Op>
    decreases |events|
  {
    if events == [] then [Create(id)] else
      var e := events[|events| - 1];
      Ops(events[..|events| - 1], id) + [if e.ClientSync? then Sync(id) else e.op]
  }

  /** The client's cursor, all items it was given, and whether some sync said `dropped`. */
  datatype Client = Client(cursor: Option<nat>, collected: seq<Item>, reported: bool)

  function AsInt(cursor: Option<nat>): Option<int> {
    if cursor.Some? then Some(cursor.value) else None
  }

  ghost function After(ringSize: nat, events: seq<Event>, id: string): Client
    decreases |events|
  {
    if events == [] then Client(None, [], false) else
      var front, e := events[..|events| - 1], events[|events| - 1];
      var c, subs := After(ringSize, front, id), Run(ringSize, Ops(front, id)).subs;
      if e.ClientSync? && id in subs then
        Received(c, subs[id])
      else c
  }

  lemma {:induction false} AfterSuffix(log: seq<ValueSample>, from: nat, last: nat)
    requires from <= |log| && last <= |log|
    ensures Subscriptions.After(Numbered(log)[from..], last) == Numbered(log)[if from < last then last else from..]
    decreases |log| - from
  {
    var rest := Numbered(log)[from..];
    if from < |log| {
      assert rest[0].sequenceNumber == from + 1 && rest[1..] == Numbered(log)[from + 1..];
      AfterSuffix(log, from + 1, last);
      if from < last {
        assert Subscriptions.After(rest, last) == Subscriptions.After(rest[1..], last);
      } else {
        assert [rest[0]] + Numbered(log)[from + 1..] == rest;
      }
    }
  }

  lemma {:induction false} AdvanceToEnd(log: seq<ValueSample>, from: nat, cursor: Option<nat>)
    requires from < |log| && (cursor.None? || cursor.value <= from)
    ensures Advance(cursor, Numbered(log)[from..]) == Some(|log|)
    decreases |log| - from
  {
    var rest := Numbered(log)[from..];
    assert rest[1..] == Numbered(log)[from + 1..];
    if from + 1 < |log| {
      AdvanceToEnd(log, from + 1, Some(from + 1));
    } else {
      assert rest[1..] == [];
    }
  }

  /** The cursor stands where the last sync left it. */
  predicate CursorAt(cursor: Option<nat>, ringSize: nat, synced: nat) {
    if ringSize == 0 || synced == 0 then cursor == None else cursor == Some(synced)
  }

  function Later(a: int, b: int): int {
    if a < b then b else a
  }

  lemma RingIsTail(ring: seq<Item>, log: seq<ValueSample>, ringSize: nat)
    requires ring == LastN(Numbered(log), ringSize)
    ensures ring == Numbered(log)[Later(0, |log| - ringSize)..]
  {
  }

  lemma SyncGives(ringSize: nat, sub: Sub, log: seq<ValueSample>, synced: nat, cursor: Option<nat>)
    requires sub.ring == LastN(Numbered(log), ringSize) && synced <= |log| && CursorAt(cursor, ringSize, synced)
    ensures SyncItems(sub, AsInt(cursor)) == Numbered(log)[Later(synced, |log| - ringSize)..]
  {
    RingIsTail(sub.ring, log, ringSize);
    if cursor.Some? {
      AfterSuffix(log, Later(0, |log| - ringSize), synced);
    }
  }

  /** A sync hands over the log from the cursor on, except for what the ring has already lost;
      whenever it lost something the client has not got, this very sync says `dropped`. */
  lemma SyncDelivers(ringSize: nat, sub: Sub, elements: set<string>, log: seq<ValueSample>, synced: nat,
      cursor: Option<nat>)
    requires Tracks(sub, ringSize, elements, log, synced) && synced <= |log| && CursorAt(cursor, ringSize, synced)
    ensures SyncItems(sub, AsInt(cursor)) == Numbered(log)[Later(synced, |log| - ringSize)..]
    ensures |log| - ringSize > synced ==> sub.dropped
    ensures CursorAt(Advance(cursor, SyncItems(sub, AsInt(cursor))), ringSize, |log|)
  {
    SyncGives(ringSize, sub, log, synced, cursor);
    var start := Later(synced, |log| - ringSize);
    if start < |log| {
      AdvanceToEnd(log, start, cursor);
    }
  }

  /** In order, from the log, without repeats. */
  ghost predicate InOrder(items: seq<Item>, log: seq<ValueSample>) {
    && (forall k :: 0 <= k < |items| ==>
          1 <= items[k].sequenceNumber <= |log| && items[k] == Numbered(log)[items[k].sequenceNumber - 1])
    && (forall j, k :: 0 <= j < k < |items| ==> items[j].sequenceNumber < items[k].sequenceNumber)
  }

  lemma OrderGrows(items: seq<Item>, log: seq<ValueSample>, n: nat)
    requires n <= |log| && InOrder(items, log[..n])
    ensures InOrder(items, log) && forall k :: 0 <= k < |items| ==> items[k].sequenceNumber <= n
  {
    assert forall m :: 0 <= m < n ==> Numbered(log[..n])[m] == Numbered(log)[m];
  }

  lemma TailInOrder(log: seq<ValueSample>, from: nat)
    requires from <= |log|
    ensures InOrder(Numbered(log)[from..], log)
  {
    var tail := Numbered(log)[from..];
    forall k | 0 <= k < |tail| ensures tail[k] == Numbered(log)[from + k] && tail[k].sequenceNumber == from + k + 1 {
    }
  }

  lemma SyncKeepsOrder(collected: seq<Item>, log: seq<ValueSample>, synced: nat, from: nat)
    requires synced <= from <= |log| && InOrder(collected, log[..synced])
    ensures InOrder(collected + Numbered(log)[from..], log)
  {
    OrderGrows(collected, log, synced);
    TailInOrder(log, from);
    OrderedBefore(collected, Numbered(log)[from..], log, from);
  }

  lemma OrderedBefore(early: seq<Item>, late: seq<Item>, log: seq<ValueSample>, from: nat)
    requires InOrder(early, log) && InOrder(late, log)
    requires forall k :: 0 <= k < |early| ==> early[k].sequenceNumber <= from
    requires forall k :: 0 <= k < |late| ==> from < late[k].sequenceNumber
    ensures InOrder(early + late, log)
  {
  }

  lemma {:induction false} OpsShape(events: seq<Event>, id: string)
    requires Tame(events, id)
    ensures Holds(Ops(events, id), id).Some?
    decreases |events|
  {
    var ops := Ops(events, id);
    if events == [] {
      assert ops[..0] == [];
    } else {
      var front, e := events[..|events| - 1], events[|events| - 1];
      assert e in events && forall d :: d in front ==> d in events;
      assert ops[..|ops| - 1] == Ops(front, id);
      OpsShape(front, id);
    }
  }

  /** What a client holds when it has synced up to the end of `log`. */
  ghost predicate HasCollected(c: Client, ringSize: nat, log: seq<ValueSample>) {
    && CursorAt(c.cursor, ringSize, |log|)
    && InOrder(c.collected, log)
    && (!c.reported ==> c.collected == Numbered(log))
  }

  ghost predicate Collects(ringSize: nat, events: seq<Event>, id: string) {
    var ops := Ops(events, id);
    HasCollected(After(ringSize, events, id), ringSize, Log(ops, id)[..Synced(ops, id)])
  }

  function Received(c: Client, sub: Sub): Client {
    var items := SyncItems(sub, AsInt(c.cursor));
    Client(Advance(c.cursor, items), c.collected + items, c.reported || sub.dropped)
  }

  lemma ReceivedCollects(ringSize: nat, sub: Sub, log: seq<ValueSample>, synced: nat, c: Client)
    requires Tracks(sub, ringSize, sub.elements, log, synced) && synced <= |log|
    requires HasCollected(c, ringSize, log[..synced])
    ensures HasCollected(Received(c, sub), ringSize, log)
  {
    SyncDelivers(ringSize, sub, sub.elements, log, synced, c.cursor);
    SyncKeepsOrder(c.collected, log, synced, Later(synced, |log| - ringSize));
    NumberedPrefix(log, synced);
  }

  lemma NumberedPrefix(log: seq<ValueSample>, n: nat)
    requires n <= |log|
    ensures Numbered(log[..n]) == Numbered(log)[..n]
    ensures Numbered(log) == Numbered(log[..n]) + Numbered(log)[n..]
  {
  }

  /** A sync extends the known log to all of it. */
  lemma SyncStep(front: seq<Event>, id: string)
    ensures var ops := Ops(front + [ClientSync], id);
      && Log(ops, id) == Log(Ops(front, id), id) && Synced(ops, id) == |Log(ops, id)|
  {
    var ops := Ops(front + [ClientSync], id);
    assert (front + [ClientSync])[..|front|] == front;
    assert ops[..|ops| - 1] == Ops(front, id);
  }

  /** Anything else leaves the known part of the log alone. */
  lemma ServerStep(front: seq<Event>, op: Op, id: string)
    requires op != Create(id) && op != Delete(id) && op != Sync(id)
    ensures var ops, before := Ops(front + [Server(op)], id), Ops(front, id);
      && Synced(ops, id) == Synced(before, id)
      && Log(ops, id)[..Synced(ops, id)] == Log(before, id)[..Synced(before, id)]
  {
    var ops := Ops(front + [Server(op)], id);
    assert (front + [Server(op)])[..|front|] == front;
    assert ops[..|ops| - 1] == Ops(front, id);
  }

  lemma AfterSync(ringSize: nat, front: seq<Event>, id: string)
    requires id in Run(ringSize, Ops(front, id)).subs
    ensures After(ringSize, front + [ClientSync], id)
         == Received(After(ringSize, front, id), Run(ringSize, Ops(front, id)).subs[id])
  {
    assert (front + [ClientSync])[..|front|] == front;
  }

  lemma CollectsAfterSync(ringSize: nat, front: seq<Event>, id: string)
    requires Collects(ringSize, front, id) && Holds(Ops(front, id), id).Some?
    ensures Collects(ringSize, front + [ClientSync], id)
  {
    var before, c := Ops(front, id), After(ringSize, front, id);
    var log, synced := Log(before, id), Synced(before, id);
    RunTracks(ringSize, before, id);
    var sub := Run(ringSize, before).subs[id];
    ReceivedCollects(ringSize, sub, log, synced, c);
    AfterSync(ringSize, front, id);
    SyncStep(front, id);
    var ops := Ops(front + [ClientSync], id);
    assert Log(ops, id)[..Synced(ops, id)] == log;
  }

  lemma CollectsAfterServer(ringSize: nat, front: seq<Event>, op: Op, id: string)
    requires Collects(ringSize, front, id) && op != Create(id) && op != Delete(id) && op != Sync(id)
    ensures Collects(ringSize, front + [Server(op)], id)
  {
    ServerStep(front, op, id);
    assert (front + [Server(op)])[..|front|] == front;
  }

  /** Over every interleaving, what the client collected is a strictly increasing in-order part of the log
      up to its last sync, and the whole of it unless some sync reported `dropped`. */
  lemma {:induction false} ClientCollectsLog(ringSize: nat, events: seq<Event>, id: string)
    requires Tame(events, id)
    ensures Collects(ringSize, events, id)
    decreases |events|
  {
    OpsShape(events, id);
    if events != [] {
      var front, e := events[..|events| - 1], events[|events| - 1];
      assert events == front + [e] && forall d :: d in front ==> d in events;
      ClientCollectsLog(ringSize, front, id);
      OpsShape(front, id);
      match e
      case ClientSync => CollectsAfterSync(ringSize, front, id);
      case Server(op) => CollectsAfterServer(ringSize, front, op, id);
    }
  }

  lemma CollectedShows(items: seq<Item>, log: seq<ValueSample>, k: nat)
    requires InOrder(items, log) && k < |items|
    ensures Shows(items[k], log, items[k].sequenceNumber)
  {
    NumberedShows(log, items[k].sequenceNumber - 1);
  }

  /** Each item collected shows the sample of its number; when nothing was reported lost, the k-th shows the k-th. */
  lemma ClientShowsLog(ringSize: nat, events: seq<Event>, id: string)
    requires Tame(events, id)
    ensures var c, log := After(ringSize, events, id), Log(Ops(events, id), id);
      && (forall k :: 0 <= k < |c.collected| ==> Shows(c.collected[k], log, c.collected[k].sequenceNumber))
      && (!c.reported ==>
           |c.collected| == Synced(Ops(events, id), id)
           && forall k :: 0 <= k < |c.collected| ==> Shows(c.collected[k], log, k + 1))
  {
    ClientCollectsLog(ringSize, events, id);
    var c, log := After(ringSize, events, id), Log(Ops(events, id), id);
    var seen := log[..Synced(Ops(events, id), id)];
    forall k | 0 <= k < |c.collected| ensures Shows(c.collected[k], log, c.collected[k].sequenceNumber) {
      CollectedShows(c.collected, seen, k);
      assert forall n :: 0 <= n < |seen| ==> seen[n] == log[n];
    }
    if !c.reported {
      forall k | 0 <= k < |c.collected| ensures c.collected[k].sequenceNumber == k + 1 {
        NumberedShows(seen, k);
      }
    }
  }

  // ------------------------------------------------------------------ recovering from a slow stream

  lemma {:induction false} AfterExact(ring: seq<Item>, last: int, item: Item)
    ensures item in Subscriptions.After(ring, last) <==> item in ring && item.sequenceNumber > last
  {
    if ring != [] {
      assert ring == [ring[0]] + ring[1..];
      AfterExact(ring[1..], last, item);
    }
  }

  lemma SyncReturnsIff(sub: Sub, item: Item, last: Option<int>)
    requires item in sub.ring
    ensures item in SyncItems(sub, last) <==> last.None? || last.value < item.sequenceNumber
  {
    if last.Some? {
      AfterExact(sub.ring, last.value, item);
    }
  }

  /** Unless the subscription is made anew or deleted, its log only grows. */
  lemma {:induction false} LogGrows(ops: seq<Op>, id: string, m: nat)
    requires m <= |ops| && forall k :: m <= k < |ops| ==> ops[k] != Create(id) && ops[k] != Delete(id)
    ensures Log(ops[..m], id) <= Log(ops, id)
    decreases |ops|
  {
    if m == |ops| {
      assert ops[..m] == ops;
    } else {
      var front := ops[..|ops| - 1];
      assert front[..m] == ops[..m];
      LogGrows(front, id, m);
    }
  }

  /** The item numbered `n` came after the queue's `k`-th entry and before the queue was detached, and the
      queue never took it. */
  ghost predicate Missed(q: Queue, log: seq<ValueSample>, k: nat, n: nat) {
    && k < |q.puts| && q.puts[k].Some? && q.puts[k].value.sequenceNumber < n <= |log|
    && forall j :: 0 <= j < |q.puts| && q.puts[j].Some? ==> q.puts[j].value.sequenceNumber != n
  }

  /** Only a queue that was full misses anything. */
  lemma NeverFullMissesNothing(q: Queue, log: seq<ValueSample>, k: nat, n: nat)
    requires HeardUpTo(q, log) && !q.full
    ensures !Missed(q, log, k, n)
  {
    var puts := ItemsOf(q.puts);
    if k < |q.puts| && q.puts[k].Some? && q.puts[k].value.sequenceNumber < n <= |log| {
      assert puts[k] == q.puts[k];
      assert puts[n - q.since] == q.puts[n - q.since] && puts[n - q.since].value.sequenceNumber == n;
    }
  }

  lemma RingHolds(sub: Sub, ringSize: nat, elements: set<string>, log: seq<ValueSample>, synced: nat, n: nat)
    requires Tracks(sub, ringSize, elements, log, synced) && 1 <= n <= |log|
    ensures Numbered(log)[n - 1] in sub.ring <==> n > |log| - ringSize
  {
    var from := Later(0, |log| - ringSize);
    assert sub.ring == Numbered(log)[from..];
    if n > from {
      assert sub.ring[n - 1 - from] == Numbered(log)[n - 1];
    }
  }

  /** Over every run and for every queue, detached ones included: an item missed after entry `k` comes back
      with a sync from that entry's number exactly when the ring still holds it. */
  lemma GapRecoveredIff(ringSize: nat, ops: seq<Op>, i: nat, m: nat, k: nat, n: nat)
    requires i < |Run(ringSize, ops).queues| && LeftAfter(ringSize, ops, i, m)
    requires var q := Run(ringSize, ops).queues[i];
      && q.sub in Run(ringSize, ops).subs
      && (forall j :: m <= j < |ops| ==> ops[j] != Create(q.sub) && ops[j] != Delete(q.sub))
      && Missed(q, Log(ops[..m], q.sub), k, n)
    ensures var q := Run(ringSize, ops).queues[i];
      var sub, log := Run(ringSize, ops).subs[q.sub], Log(ops, q.sub);
      && q.full && n <= |log|
      && (Numbered(log)[n - 1] in SyncItems(sub, Some(q.puts[k].value.sequenceNumber)) <==> n > |log| - ringSize)
  {
    var q := Run(ringSize, ops).queues[i];
    var sub, log := Run(ringSize, ops).subs[q.sub], Log(ops, q.sub);
    var left := EveryQueueHeard(ringSize, ops, i);
    LeftOnce(ringSize, ops, i, m, left);
    if !q.full {
      NeverFullMissesNothing(q, Log(ops[..m], q.sub), k, n);
    }
    LogGrows(ops, q.sub, m);
    RunTracks(ringSize, ops, q.sub);
    RingHolds(sub, ringSize, sub.elements, log, Synced(ops, q.sub), n);
    AfterExact(sub.ring, q.puts[k].value.sequenceNumber, Numbered(log)[n - 1]);
  }

  lemma LeftOnce(ringSize: nat, ops: seq<Op>, i: nat, m: nat, n: nat)
    requires LeftAfter(ringSize, ops, i, m) && LeftAfter(ringSize, ops, i, n)
    ensures m == n
  {
  }

  /** The cursor follows the highest number: what it ends beyond is what it started beyond or what came. */
  lemma {:induction false} AdvanceReaches(cursor: Option<nat>, items: seq<Item>, n: nat)
    ensures (Advance(cursor, items).Some? && Advance(cursor, items).value >= n)
       <==> (cursor.Some? && cursor.value >= n) || exists k :: 0 <= k < |items| && items[k].sequenceNumber >= n
    decreases |items|
  {
    if items != [] {
      var seen := items[0].sequenceNumber;
      AdvanceReaches(if cursor.None? || seen > cursor.value then Some(seen) else cursor, items[1..], n);
      assert forall k :: 0 <= k < |items[1..]| ==> items[1..][k] == items[k + 1];
      assert forall k :: 0 < k < |items| ==> items[k] == items[1..][k - 1];
    }
  }

  /** But stream and sync share one cursor: this client's own sync returns a buffered item exactly when neither
      the cursor nor anything streamed since has reached its number. */
  lemma SharedCursorSkipsIff(sub: Sub, missed: Item, streamed: seq<Item>, cursor: Option<nat>)
    requires missed in sub.ring
    ensures missed in SyncItems(sub, AsInt(Advance(cursor, streamed)))
       <==> (cursor.None? || cursor.value < missed.sequenceNumber)
            && forall k :: 0 <= k < |streamed| ==> streamed[k].sequenceNumber < missed.sequenceNumber
  {
    AdvanceReaches(cursor, streamed, missed.sequenceNumber);
    SyncReturnsIff(sub, missed, AsInt(Advance(cursor, streamed)));
  }

  // ------------------------------------------------------------------ a run with a gap

  /** A slow consumer of a queue of one: two items arrive before it takes the first, a third after. */
  function GapRun(id: string, x: ValueSample, y: ValueSample, z: ValueSample): seq<Op> {
    [Create(id), Attach(id, 1), PushTo(id, x), PushTo(id, y), Take(0), PushTo(id, z)]
  }

  /** Its queue took the first and third item, while the ring has the second. */
  lemma GapHappens(ringSize: nat, id: string, x: ValueSample, y: ValueSample, z: ValueSample)
    requires ringSize >= 2
    ensures var s := Run(ringSize, GapRun(id, x, y, z));
      && |s.queues| == 1 && s.queues[0].puts == [Some(ItemOf(x, 1)), Some(ItemOf(z, 3))] && s.queues[0].full
      && id in s.subs && ItemOf(y, 2) in s.subs[id].ring
  {
    var ops := GapRun(id, x, y, z);
    var s1 := Apply(INITIAL, ringSize, ops[0]);
    var s2 := Apply(s1, ringSize, ops[1]);
    var s3 := Apply(s2, ringSize, ops[2]);
    var s4 := Apply(s3, ringSize, ops[3]);
    var s5 := Apply(s4, ringSize, ops[4]);
    var s6 := Apply(s5, ringSize, ops[5]);
    RunOfSix(ringSize, ops);
    assert s6.queues[0].puts == [Some(ItemOf(x, 1)), Some(ItemOf(z, 3))];
    assert s6.subs[id].ring[|s6.subs[id].ring| - 2] == ItemOf(y, 2);
  }

  /** A sync from the first item brings the second; this client's own, whose cursor followed the stream, does not. */
  lemma GapIsSkipped(ringSize: nat, id: string, x: ValueSample, y: ValueSample, z: ValueSample)
    requires ringSize >= 2
    ensures var s := Run(ringSize, GapRun(id, x, y, z));
      && id in s.subs
      && ItemOf(y, 2) in SyncItems(s.subs[id], Some(1))
      && ItemOf(y, 2) !in SyncItems(s.subs[id], AsInt(Advance(None, [ItemOf(x, 1), ItemOf(z, 3)])))
  {
    GapHappens(ringSize, id, x, y, z);
    var sub := Run(ringSize, GapRun(id, x, y, z)).subs[id];
    SyncReturnsIff(sub, ItemOf(y, 2), Some(1));
    SharedCursorSkipsIff(sub, ItemOf(y, 2), [ItemOf(x, 1), ItemOf(z, 3)], None);
    assert [ItemOf(x, 1), ItemOf(z, 3)][1].sequenceNumber == 3;
  }

  lemma RunOfSix(ringSize: nat, ops: seq<Op>)
    requires |ops| == 6
    ensures Run(ringSize, ops)
         == Apply(Apply(Apply(Apply(Apply(Apply(INITIAL, ringSize, ops[0]), ringSize, ops[1]), ringSize, ops[2]),
                              ringSize, ops[3]), ringSize, ops[4]), ringSize, ops[5])
  {
    assert ops[..1][..0] == [];
    assert ops[..2][..1] == ops[..1] && ops[..3][..2] == ops[..2] && ops[..4][..3] == ops[..3];
    assert ops[..5][..4] == ops[..4] && ops[..6] == ops;
    assert Run(ringSize, ops[..1]) == Apply(INITIAL, ringSize, ops[0]);
    assert Run(ringSize, ops[..2]) == Apply(Run(ringSize, ops[..1]), ringSize, ops[1]);
    assert Run(ringSize, ops[..3]) == Apply(Run(ringSize, ops[..2]), ringSize, ops[2]);
    assert Run(ringSize, ops[..4]) == Apply(Run(ringSize, ops[..3]), ringSize, ops[3]);
    assert Run(ringSize, ops[..5]) == Apply(Run(ringSize, ops[..4]), ringSize, ops[4]);
  }
}
