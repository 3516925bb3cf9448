/** The subscription manager: bounded rings, sequence numbers, fan-out, stream queues (core/subscriptions.py). */
module Subscriptions {
  import opened Neutral
  import Json
  import opened Samples

  datatype Item = Item(elementId: string, value: Json.Json, quality: Quality, timestamp: string, sequenceNumber: nat)

  /** `streamers` are positions in the list of all queues ever attached. */
  datatype Sub = Sub(ring: seq<Item>, elements: set<string>, nextSeq: nat, dropped: bool, streamers: seq<nat>)

  /** A stream queue; None is the end sentinel. `sub` is what it was attached to and `since` the first
      number it could see, `puts` is everything ever accepted and `full` whether anything was refused. */
  datatype Queue = Queue(
    maxsize: int, entries: seq<Option<Item>>, sub: string, since: nat, puts: seq<Option<Item>>, full: bool)

  datatype State = State(subs: map<string, Sub>, queues: seq<Queue>)

  const INITIAL := State(map[], [])

  function ItemOf(sample: ValueSample, number: nat): Item {
    Item(sample.elementId, Json.Strip(sample.value), sample.quality, sample.timestamp, number)
  }

  /** `put_nowait`, with QueueFull suppressed. A maxsize of 0 or less means no bound. */
  function Put(q: Queue, entry: Option<Item>): Queue {
    if q.maxsize > 0 && |q.entries| >= q.maxsize then q.(full := true)
    else q.(entries := q.entries + [entry], puts := q.puts + [entry])
  }

  function PutTo(queues: seq<Queue>, targets: seq<nat>, entry: Option<Item>): seq<Queue> {
    seq(|queues|, i requires 0 <= i < |queues| => if i in targets then Put(queues[i], entry) else queues[i])
  }

  function Grown(sub: Sub, ringSize: nat, sample: ValueSample): Sub {
    sub.(ring := LastN(sub.ring + [ItemOf(sample, sub.nextSeq)], ringSize),
         nextSeq := sub.nextSeq + 1,
         dropped := sub.dropped || |sub.ring| == ringSize)
  }

  function Append(s: State, ringSize: nat, id: string, sample: ValueSample): State
    requires id in s.subs
  {
    State(s.subs[id := Grown(s.subs[id], ringSize, sample)],
          PutTo(s.queues, s.subs[id].streamers, Some(ItemOf(sample, s.subs[id].nextSeq))))
  }

  function SyncItems(sub: Sub, last: Option<int>): seq<Item> {
    if last.None? then sub.ring else After(sub.ring, last.value)
  }

  function After(ring: seq<Item>, last: int): seq<Item> {
    if ring == [] then [] else
      (if ring[0].sequenceNumber > last then [ring[0]] else []) + After(ring[1..], last)
  }

  // ------------------------------------------------------------------ operations

  datatype Op =
    | Create(id: string)
    | Delete(id: string)
    | Register(id: string, elementIds: seq<string>)
    | Unregister(id: string, elementIds: seq<string>)
    | Push(sample: ValueSample)
    | PushTo(id: string, sample: ValueSample)
    | Sync(id: string)
    | Attach(id: string, maxsize: int)
    | Detach(id: string, queue: nat)
    | Take(queue: nat)

  predicate Hears(s: State, id: string, elementId: string) {
    id in s.subs && elementId in s.subs[id].elements
  }

  /** Each subscription that holds the element takes the sample, whatever the order. */
  function Fanned(s: State, ringSize: nat, sample: ValueSample): State {
    State(
      map id | id in s.subs :: if Hears(s, id, sample.elementId) then Grown(s.subs[id], ringSize, sample)
          else s.subs[id],
      seq(|s.queues|, i requires 0 <= i < |s.queues| =>
        var q := s.queues[i];
        if Hears(s, q.sub, sample.elementId) && i in s.subs[q.sub].streamers
        then Put(q, Some(ItemOf(sample, s.subs[q.sub].nextSeq))) else q))
  }

  function RemoveFirst(list: seq<nat>, x: nat): seq<nat> {
    if list == [] then [] else if list[0] == x then list[1..] else [list[0]] + RemoveFirst(list[1..], x)
  }

  /** The state after one operation; an unknown subscription is an error and changes nothing. */
  function Apply(s: State, ringSize: nat, op: Op): State {
    match op
    case Create(id) => s.(subs := s.subs[id := Sub([], {}, 1, false, [])])
    case Delete(id) =>
      if id !in s.subs then s else State(s.subs - {id}, PutTo(s.queues, s.subs[id].streamers, None))
    case Register(id, eids) =>
      if id !in s.subs then s else
        s.(subs := s.subs[id := s.subs[id].(elements := s.subs[id].elements + ToSet(eids))])
    case Unregister(id, eids) =>
      if id !in s.subs then s else
        s.(subs := s.subs[id := s.subs[id].(elements := s.subs[id].elements - ToSet(eids))])
    case Push(sample) => Fanned(s, ringSize, sample)
    case PushTo(id, sample) => if id !in s.subs then s else Append(s, ringSize, id, sample)
    case Sync(id) => if id !in s.subs then s else s.(subs := s.subs[id := s.subs[id].(dropped := false)])
    case Attach(id, maxsize) =>
      if id !in s.subs then s else
        State(s.subs[id := s.subs[id].(streamers := s.subs[id].streamers + [|s.queues|])],
              s.queues + [Queue(maxsize, [], id, s.subs[id].nextSeq, [], false)])
    case Detach(id, queue) =>
      if id !in s.subs then s else
        s.(subs := s.subs[id := s.subs[id].(streamers := RemoveFirst(s.subs[id].streamers, queue))])
    case Take(queue) =>
      if queue >= |s.queues| || s.queues[queue].entries == [] then s else
        s.(queues := s.queues[queue := s.queues[queue].(entries := s.queues[queue].entries[1..])])
  }

  ghost function Run(ringSize: nat, ops: seq<Op>): State
    decreases |ops|
  {
    if ops == [] then INITIAL else Apply(Run(ringSize, ops[..|ops| - 1]), ringSize, ops[|ops| - 1])
  }

  // ------------------------------------------------------------------ what a run amounts to, told from its operations

  /** The elements a subscription holds after these operations, None when it does not exist. */
  ghost function Holds(ops: seq<Op>, id: string): Option<set<string>>
    decreases |ops|
  {
    if ops == [] then None else
      var was, op := Holds(ops[..|ops| - 1], id), ops[|ops| - 1];
      if op == Create(id) then Some({})
      else if op == Delete(id) then None
      else if was.Some? && op.Register? && op.id == id then Some(was.value + ToSet(op.elementIds))
      else if was.Some? && op.Unregister? && op.id == id then Some(was.value - ToSet(op.elementIds))
      else was
  }

  /** The samples delivered to it since it was created. */
  ghost function Log(ops: seq<Op>, id: string): seq<ValueSample>
    decreases |ops|
  {
    if ops == [] then [] else
      var front, op := ops[..|ops| - 1], ops[|ops| - 1];
      if op == Create(id) || op == Delete(id) then []
      else if Delivers(front, op, id) then Log(front, id) + [op.sample]
      else Log(front, id)
  }

  /** `op` brings the subscription a sample: pushed while registered, or sent to it. */
  ghost predicate Delivers(before: seq<Op>, op: Op, id: string) {
    && Holds(before, id).Some?
    && (op.Push? || (op.PushTo? && op.id == id))
    && (op.Push? ==> op.sample.elementId in Holds(before, id).value)
  }

  /** How long the log was at the last sync. */
  ghost function Synced(ops: seq<Op>, id: string): (n: nat)
    ensures n <= |Log(ops, id)|
    decreases |ops|
  {
    if ops == [] then 0 else
      var front, op := ops[..|ops| - 1], ops[|ops| - 1];
      if op == Create(id) || op == Delete(id) then 0
      else if op == Sync(id) then |Log(front, id)|
      else Synced(front, id)
  }

  /** The log as items, numbered from 1 without gaps. */
  function Numbered(log: seq<ValueSample>): seq<Item> {
    seq(|log|, i requires 0 <= i < |log| => ItemOf(log[i], i + 1))
  }

  ghost predicate Tracks(sub: Sub, ringSize: nat, elements: set<string>, log: seq<ValueSample>, synced: nat) {
    && sub.elements == elements
    && sub.ring == LastN(Numbered(log), ringSize)
    && sub.nextSeq == |log| + 1
    && (sub.dropped <==> |log| > ringSize && |log| > synced)
  }

  lemma GrownTracks(sub: Sub, ringSize: nat, log: seq<ValueSample>, synced: nat, sample: ValueSample)
    requires Tracks(sub, ringSize, sub.elements, log, synced) && synced <= |log|
    ensures Tracks(Grown(sub, ringSize, sample), ringSize, sub.elements, log + [sample], synced)
  {
    var item := ItemOf(sample, |log| + 1);
    assert Numbered(log + [sample]) == Numbered(log) + [item];
    assert LastN(LastN(Numbered(log), ringSize) + [item], ringSize) == LastN(Numbered(log) + [item], ringSize);
  }

  /** On every run each live subscription holds exactly the registered elements; its ring is the end of its
      own log, numbered 1..n; and `dropped` says that an eviction happened since the last sync. */
  lemma {:induction false} RunTracks(ringSize: nat, ops: seq<Op>, id: string)
    ensures var subs := Run(ringSize, ops).subs;
      && (id in subs <==> Holds(ops, id).Some?)
      && (id in subs ==> Tracks(subs[id], ringSize, Holds(ops, id).value, Log(ops, id), Synced(ops, id)))
    decreases |ops|
  {
    if ops != [] {
      var front, op := ops[..|ops| - 1], ops[|ops| - 1];
      RunTracks(ringSize, front, id);
      var s := Run(ringSize, front);
      if id in s.subs && Delivers(front, op, id) {
        GrownTracks(s.subs[id], ringSize, Log(front, id), Synced(front, id), op.sample);
      }
    }
  }

  /** The operations one subscription can notice. */
  predicate Concerns(op: Op, id: string) {
    op.Push? || (!op.Take? && op.id == id)
  }

  function Project(ops: seq<Op>, id: string): seq<Op>
    decreases |ops|
  {
    if ops == [] then [] else
      var front, op := Project(ops[..|ops| - 1], id), ops[|ops| - 1];
      if Concerns(op, id) then front + [op] else front
  }

  ghost predicate SameHistory(a: seq<Op>, b: seq<Op>, id: string) {
    Holds(a, id) == Holds(b, id) && Log(a, id) == Log(b, id) && Synced(a, id) == Synced(b, id)
  }

  lemma SameStep(a: seq<Op>, b: seq<Op>, op: Op, id: string)
    requires SameHistory(a, b, id)
    ensures SameHistory(a + [op], b + [op], id)
  {
    assert (a + [op])[..|a|] == a && (b + [op])[..|b|] == b;
  }

  lemma UnconcernedStep(a: seq<Op>, op: Op, id: string)
    requires !Concerns(op, id)
    ensures SameHistory(a + [op], a, id)
  {
    assert (a + [op])[..|a|] == a;
  }

  lemma {:induction false} ProjectKeepsHistory(ops: seq<Op>, id: string)
    ensures SameHistory(Project(ops, id), ops, id)
    decreases |ops|
  {
    if ops != [] {
      var front, op := ops[..|ops| - 1], ops[|ops| - 1];
      assert ops == front + [op];
      ProjectKeepsHistory(front, id);
      if Concerns(op, id) {
        SameStep(Project(front, id), front, op, id);
      } else {
        UnconcernedStep(front, op, id);
      }
    }
  }

  /** Nothing done to other subscriptions changes what a subscription has, numbers or reports. */
  lemma Isolation(ringSize: nat, ops: seq<Op>, id: string)
    ensures var all, own := Run(ringSize, ops).subs, Run(ringSize, Project(ops, id)).subs;
      && (id in all <==> id in own)
      && (id in all ==> all[id] == own[id].(streamers := all[id].streamers))
  {
    RunTracks(ringSize, ops, id);
    RunTracks(ringSize, Project(ops, id), id);
    ProjectKeepsHistory(ops, id);
  }

  // ------------------------------------------------------------------ stream queues

  /** Queues belong to the subscription they were attached to. */
  ghost predicate Wired(s: State) {
    forall id :: id in s.subs ==> WiredTo(s.subs[id].streamers, s.queues, id)
  }

  ghost predicate WiredTo(streamers: seq<nat>, queues: seq<Queue>, id: string) {
    NoRepeats(streamers) && forall i :: i in streamers ==> i < |queues| && queues[i].sub == id
  }

  /** What a queue accepted: in-order items of the log from `since` on, all of them if it was never full. */
  ghost predicate Heard(q: Queue, log: seq<ValueSample>) {
    && 1 <= q.since <= |log| + 1
    && (forall k :: 0 <= k < |q.puts| ==>
          && q.puts[k].Some?
          && q.since <= q.puts[k].value.sequenceNumber <= |log|
          && q.puts[k].value == Numbered(log)[q.puts[k].value.sequenceNumber - 1])
    && (forall j, k :: 0 <= j < k < |q.puts| ==> q.puts[j].value.sequenceNumber < q.puts[k].value.sequenceNumber)
    && (!q.full ==> |q.puts| == |log| + 1 - q.since)
    && (!q.full ==> forall k :: 0 <= k < |q.puts| ==> q.puts[k].value.sequenceNumber == q.since + k)
  }

  lemma PutHeard(q: Queue, log: seq<ValueSample>, sample: ValueSample)
    requires Heard(q, log)
    ensures Heard(Put(q, Some(ItemOf(sample, |log| + 1))), log + [sample])
  {
    assert forall n :: 0 <= n < |log| ==> Numbered(log + [sample])[n] == Numbered(log)[n];
  }

  lemma {:induction false} RemoveFirstExact(list: seq<nat>, x: nat)
    requires NoRepeats(list)
    ensures NoRepeats(RemoveFirst(list, x))
    ensures forall y :: y in RemoveFirst(list, x) <==> y in list && y != x
  {
    if list != [] {
      assert list == [list[0]] + list[1..];
      assert forall k :: 0 <= k < |list[1..]| ==> list[1..][k] == list[k + 1];
      assert list[0] !in list[1..];
      if list[0] != x {
        RemoveFirstExact(list[1..], x);
      }
    }
  }

  lemma AttachWired(streamers: seq<nat>, queues: seq<Queue>, q: Queue, id: string)
    requires WiredTo(streamers, queues, id)
    ensures WiredTo(streamers, queues + [q], id)
    ensures q.sub == id ==> WiredTo(streamers + [|queues|], queues + [q], id)
  {
    assert forall j :: 0 <= j < |streamers| ==> streamers[j] in streamers;
  }

  lemma ApplyKeepsWired(s: State, ringSize: nat, op: Op)
    requires Wired(s)
    ensures Wired(Apply(s, ringSize, op))
  {
    var after := Apply(s, ringSize, op);
    forall id | id in after.subs ensures WiredTo(after.subs[id].streamers, after.queues, id) {
      if op.Attach? && op.id in s.subs {
        AttachWired(s.subs[id].streamers, s.queues, after.queues[|s.queues|], id);
      } else if op.Detach? && op.id == id {
        RemoveFirstExact(s.subs[id].streamers, op.queue);
      }
    }
  }

  lemma {:induction false} RunWired(ringSize: nat, ops: seq<Op>)
    ensures Wired(Run(ringSize, ops))
    decreases |ops|
  {
    if ops != [] {
      RunWired(ringSize, ops[..|ops| - 1]);
      ApplyKeepsWired(Run(ringSize, ops[..|ops| - 1]), ringSize, ops[|ops| - 1]);
    }
  }

  /** One operation keeps what an attached queue has heard in step with the log. */
  lemma HeardStep(s: State, ringSize: nat, op: Op, id: string, i: nat, log: seq<ValueSample>)
    requires Wired(s) && id in s.subs && i in s.subs[id].streamers && i < |s.queues|
    requires Heard(s.queues[i], log) && s.subs[id].nextSeq == |log| + 1
    requires op != Create(id) && op != Delete(id)
    ensures var after := Apply(s, ringSize, op);
      i < |after.queues| &&
      if (op.Push? && op.sample.elementId in s.subs[id].elements) || (op.PushTo? && op.id == id)
      then Heard(after.queues[i], log + [op.sample]) else Heard(after.queues[i], log)
  {
    var after := Apply(s, ringSize, op);
    assert WiredTo(s.subs[id].streamers, s.queues, id);
    if (op.Push? && op.sample.elementId in s.subs[id].elements) || (op.PushTo? && op.id == id) {
      PutHeard(s.queues[i], log, op.sample);
      assert after.queues[i] == Put(s.queues[i], Some(ItemOf(op.sample, |log| + 1)));
    } else {
      forall other | other in s.subs && i in s.subs[other].streamers ensures other == id {
        AttachedAlone(s, i, id, other);
      }
    }
  }

  /** On every run, what an attached queue has accepted is an in-order part of its subscription's log
      since it was attached, without gaps if the queue was never full. */
  lemma {:induction false} RunHeard(ringSize: nat, ops: seq<Op>, id: string, i: nat)
    requires id in Run(ringSize, ops).subs && i in Run(ringSize, ops).subs[id].streamers
    ensures i < |Run(ringSize, ops).queues| && Heard(Run(ringSize, ops).queues[i], Log(ops, id))
    decreases |ops|
  {
    if ops != [] {
      var front, op := ops[..|ops| - 1], ops[|ops| - 1];
      var s := Run(ringSize, front);
      RunWired(ringSize, front);
      RunTracks(ringSize, front, id);
      if op.Detach? && op.id == id {
        RemoveFirstExact(s.subs[id].streamers, op.queue);
      }
      if i in s.subs[id].streamers {
        RunHeard(ringSize, front, id, i);
        HeardStep(s, ringSize, op, id, i, Log(front, id));
      } else {
        assert op.Attach? && op.id == id && i == |s.queues|;
      }
    }
  }

  lemma AttachedAlone(s: State, i: nat, id: string, other: string)
    requires Wired(s) && id in s.subs && other in s.subs && i in s.subs[id].streamers && i in s.subs[other].streamers
    ensures id == other
  {
  }

  ghost predicate Attached(s: State, i: nat) {
    exists id :: id in s.subs && i in s.subs[id].streamers
  }

  /** The end sentinel is the last thing in a queue, and nothing feeds the queue any more. */
  ghost predicate Closed(s: State, i: nat)
    requires i < |s.queues|
  {
    var puts := s.queues[i].puts;
    forall k :: 0 <= k < |puts| && puts[k].None? ==> k == |puts| - 1 && !Attached(s, i)
  }

  /** The queue apart from what its consumer does with it. */
  function Fed(q: Queue): Queue {
    q.(entries := [])
  }

  lemma UnattachedStays(s: State, ringSize: nat, op: Op, i: nat)
    requires Wired(s) && i < |s.queues| && !Attached(s, i)
    ensures i < |Apply(s, ringSize, op).queues| && !Attached(Apply(s, ringSize, op), i)
    ensures Fed(Apply(s, ringSize, op).queues[i]) == Fed(s.queues[i])
  {
    var after := Apply(s, ringSize, op);
    if op.Detach? && op.id in s.subs {
      RemoveFirstExact(s.subs[op.id].streamers, op.queue);
    }
    forall id | id in after.subs ensures i !in after.subs[id].streamers {
      if id in s.subs {
        assert i !in s.subs[id].streamers;
      }
    }
  }

  /** After a subscription is deleted nothing follows the sentinel in any of its queues, on any run. */
  lemma {:induction false} RunClosed(ringSize: nat, ops: seq<Op>, i: nat)
    requires i < |Run(ringSize, ops).queues|
    ensures Closed(Run(ringSize, ops), i)
    decreases |ops|
  {
    if ops != [] {
      var front, op := ops[..|ops| - 1], ops[|ops| - 1];
      var s := Run(ringSize, front);
      RunWired(ringSize, front);
      if i < |s.queues| {
        RunClosed(ringSize, front, i);
        if !Attached(s, i) {
          UnattachedStays(s, ringSize, op, i);
        } else {
          var id :| id in s.subs && i in s.subs[id].streamers;
          RunHeard(ringSize, front, id, i);
          ClosedStep(s, ringSize, op, i, id);
        }
      }
    }
  }

  lemma ClosedStep(s: State, ringSize: nat, op: Op, i: nat, id: string)
    requires Wired(s) && i < |s.queues| && id in s.subs && i in s.subs[id].streamers
    requires forall k :: 0 <= k < |s.queues[i].puts| ==> s.queues[i].puts[k].Some?
    ensures Closed(Apply(s, ringSize, op), i)
  {
    if op == Delete(id) {
      forall other | other in s.subs && i in s.subs[other].streamers ensures other == id {
        AttachedAlone(s, i, id, other);
      }
    }
  }

  // ------------------------------------------------------------------ every queue, attached or not

  /** The items among what was accepted: all but an end sentinel. */
  function ItemsOf(puts: seq<Option<Item>>): seq<Option<Item>> {
    if puts != [] && puts[|puts| - 1].None? then puts[..|puts| - 1] else puts
  }

  /** As `Heard`, the sentinel aside. */
  ghost predicate HeardUpTo(q: Queue, log: seq<ValueSample>) {
    Heard(Items(q), log)
  }

  function Items(q: Queue): Queue {
    q.(puts := ItemsOf(q.puts))
  }

  /** Queue `i` was attached after the first `m` operations and never since. */
  ghost predicate LeftAfter(ringSize: nat, ops: seq<Op>, i: nat, m: nat) {
    && m <= |ops| && Attached(Run(ringSize, ops[..m]), i)
    && forall n :: m < n <= |ops| ==> !Attached(Run(ringSize, ops[..n]), i)
  }

  /** The operation that takes a queue off its subscription leaves it alone or offers it the sentinel. */
  lemma LeaveStep(s: State, ringSize: nat, op: Op, id: string, i: nat)
    requires Wired(s) && i < |s.queues| && id in s.subs && i in s.subs[id].streamers
    requires !Attached(Apply(s, ringSize, op), i)
    ensures i < |Apply(s, ringSize, op).queues|
    ensures Apply(s, ringSize, op).queues[i] == s.queues[i]
        || Apply(s, ringSize, op).queues[i] == Put(s.queues[i], None)
  {
    var after := Apply(s, ringSize, op);
    assert op == Delete(id) || op == Create(id) || (op.Detach? && op.id == id) by {
      if id in after.subs {
        assert i !in after.subs[id].streamers;
      }
    }
  }

  lemma NewQueueIsAttached(s: State, ringSize: nat, op: Op, i: nat)
    requires i < |Apply(s, ringSize, op).queues| && !Attached(Apply(s, ringSize, op), i)
    ensures i < |s.queues|
  {
    if op.Attach? && op.id in s.subs {
      assert |s.queues| in Apply(s, ringSize, op).subs[op.id].streamers;
    }
  }

  lemma HeardIsFed(a: Queue, b: Queue, log: seq<ValueSample>)
    requires Heard(a, log) && Fed(a) == Fed(b)
    ensures Heard(b, log)
  {
    assert b == a.(entries := b.entries);
  }

  lemma FullIsHeard(q: Queue, log: seq<ValueSample>)
    requires Heard(q, log)
    ensures Heard(q.(full := true), log)
  {
  }

  lemma SentinelIsNoItem(q: Queue)
    requires forall k :: 0 <= k < |q.puts| ==> q.puts[k].Some?
    ensures Items(q) == q
    ensures Items(Put(q, None)) == q.(full := true) || Fed(Items(Put(q, None))) == Fed(q)
  {
    assert ItemsOf(q.puts + [None]) == q.puts;
  }

  lemma SentinelHeard(q: Queue, log: seq<ValueSample>)
    requires Heard(q, log)
    ensures HeardUpTo(q, log) && HeardUpTo(Put(q, None), log)
  {
    SentinelIsNoItem(q);
    FullIsHeard(q, log);
    if Fed(Items(Put(q, None))) == Fed(q) {
      HeardIsFed(q, Items(Put(q, None)), log);
    }
  }

  lemma LeftStays(ringSize: nat, ops: seq<Op>, i: nat, m: nat)
    requires ops != [] && LeftAfter(ringSize, ops[..|ops| - 1], i, m) && !Attached(Run(ringSize, ops), i)
    ensures LeftAfter(ringSize, ops, i, m)
  {
    assert ops[..|ops|] == ops;
    assert forall n :: 0 <= n < |ops| ==> ops[..|ops| - 1][..n] == ops[..n];
  }

  /** On every run, what any queue has accepted, detached or ended ones included, is an in-order part of its
      subscription's log from when it was attached to when it was last attached, without gaps if it was never full. */
  lemma {:induction false} EveryQueueHeard(ringSize: nat, ops: seq<Op>, i: nat) returns (m: nat)
    requires i < |Run(ringSize, ops).queues|
    ensures LeftAfter(ringSize, ops, i, m)
    ensures HeardUpTo(Run(ringSize, ops).queues[i], Log(ops[..m], Run(ringSize, ops).queues[i].sub))
    decreases |ops|
  {
    var front, op := ops[..|ops| - 1], ops[|ops| - 1];
    var s, t := Run(ringSize, front), Run(ringSize, ops);
    assert ops[..|ops|] == ops;
    RunWired(ringSize, front);
    RunWired(ringSize, ops);
    if Attached(t, i) {
      var id :| id in t.subs && i in t.subs[id].streamers;
      RunHeard(ringSize, ops, id, i);
      assert WiredTo(t.subs[id].streamers, t.queues, id);
      SentinelHeard(t.queues[i], Log(ops, id));
      m := |ops|;
    } else {
      NewQueueIsAttached(s, ringSize, op, i);
      m := EveryQueueHeard(ringSize, front, i);
      assert front[..m] == ops[..m];
      LeftStays(ringSize, ops, i, m);
      if Attached(s, i) {
        assert m == |front| && front[..m] == front;
        var id :| id in s.subs && i in s.subs[id].streamers;
        LeavingHeard(ringSize, front, op, id, i);
      } else {
        UnattachedStays(s, ringSize, op, i);
        HeardIsFed(Items(s.queues[i]), Items(t.queues[i]), Log(ops[..m], s.queues[i].sub));
      }
    }
  }

  // ------------------------------------------------------------------ what clients are shown

  /** The item's number, and what the sample of that number said, its value without the Variant envelope. */
  ghost predicate Shows(item: Item, log: seq<ValueSample>, number: nat) {
    && item.sequenceNumber == number && 1 <= number <= |log|
    && item.elementId == log[number - 1].elementId && item.value == Json.Strip(log[number - 1].value)
    && item.quality == log[number - 1].quality && item.timestamp == log[number - 1].timestamp
  }

  lemma NumberedShows(log: seq<ValueSample>, k: nat)
    requires k < |log|
    ensures Shows(Numbered(log)[k], log, k + 1)
  {
  }

  lemma LastShow(log: seq<ValueSample>, n: nat, k: nat)
    requires k < |LastN(Numbered(log), n)|
    ensures Shows(LastN(Numbered(log), n)[k], log, |log| - |LastN(Numbered(log), n)| + k + 1)
  {
    NumberedShows(log, |log| - |LastN(Numbered(log), n)| + k);
  }

  lemma TailShows(ring: seq<Item>, log: seq<ValueSample>, n: nat)
    requires ring == LastN(Numbered(log), n)
    ensures |ring| == (if |log| < n then |log| else n)
    ensures forall k :: 0 <= k < |ring| ==> Shows(ring[k], log, |log| - |ring| + k + 1)
  {
    forall k | 0 <= k < |ring| ensures Shows(ring[k], log, |log| - |ring| + k + 1) {
      LastShow(log, n, k);
    }
  }

  /** On every run the ring shows the last samples delivered, as many as it has room for. */
  lemma RingShowsLog(ringSize: nat, ops: seq<Op>, id: string)
    requires id in Run(ringSize, ops).subs
    ensures var ring, log := Run(ringSize, ops).subs[id].ring, Log(ops, id);
      && |ring| == (if |log| < ringSize then |log| else ringSize)
      && forall k :: 0 <= k < |ring| ==> Shows(ring[k], log, |log| - |ring| + k + 1)
  {
    RunTracks(ringSize, ops, id);
    TailShows(Run(ringSize, ops).subs[id].ring, Log(ops, id), ringSize);
  }

  /** Whatever queue it is, each item it took shows the sample of its number. */
  lemma QueuesShowLog(ringSize: nat, ops: seq<Op>, i: nat) returns (m: nat)
    requires i < |Run(ringSize, ops).queues|
    ensures LeftAfter(ringSize, ops, i, m)
    ensures var q := Run(ringSize, ops).queues[i];
      forall k :: 0 <= k < |q.puts| && q.puts[k].Some? ==>
        Shows(q.puts[k].value, Log(ops[..m], q.sub), q.puts[k].value.sequenceNumber)
  {
    m := EveryQueueHeard(ringSize, ops, i);
    RunClosed(ringSize, ops, i);
    var q := Run(ringSize, ops).queues[i];
    var log := Log(ops[..m], q.sub);
    forall k | 0 <= k < |q.puts| && q.puts[k].Some?
      ensures Shows(q.puts[k].value, log, q.puts[k].value.sequenceNumber)
    {
      assert ItemsOf(q.puts)[k] == q.puts[k];
      assert Items(q).puts[k].value == Numbered(log)[q.puts[k].value.sequenceNumber - 1];
      NumberedShows(log, q.puts[k].value.sequenceNumber - 1);
    }
  }

  /** What waits in a queue is the end of what it took, never more than it has room for; one without a limit has never
      refused anything. */
  ghost predicate Waits(q: Queue) {
    && |q.entries| <= |q.puts| && q.entries == q.puts[|q.puts| - |q.entries|..]
    && (q.maxsize > 0 ==> |q.entries| <= q.maxsize)
    && (q.maxsize <= 0 ==> !q.full)
  }

  lemma {:induction false} QueuesWait(ringSize: nat, ops: seq<Op>, i: nat)
    requires i < |Run(ringSize, ops).queues|
    ensures Waits(Run(ringSize, ops).queues[i])
    decreases |ops|
  {
    var front, op := ops[..|ops| - 1], ops[|ops| - 1];
    if i < |Run(ringSize, front).queues| {
      QueuesWait(ringSize, front, i);
      OneMoveWaits(Run(ringSize, front), ringSize, op, i);
    }
  }

  lemma OneMoveWaits(s: State, ringSize: nat, op: Op, i: nat)
    requires i < |s.queues| && Waits(s.queues[i])
    ensures i < |Apply(s, ringSize, op).queues| && Waits(Apply(s, ringSize, op).queues[i])
  {
    var q, after := s.queues[i], Apply(s, ringSize, op).queues[i];
    forall entry ensures Waits(Put(q, entry)) {
      PutWaits(q, entry);
    }
    assert after == q || (exists entry :: after == Put(q, entry)) || (op.Take? && op.queue == i && q.entries != []);
  }

  lemma PutWaits(q: Queue, entry: Option<Item>)
    requires Waits(q)
    ensures Waits(Put(q, entry))
  {
    var after := Put(q, entry);
    assert (q.puts + [entry])[|q.puts| - |q.entries|..] == q.puts[|q.puts| - |q.entries|..] + [entry];
  }

  /** How often an item was asked for from a queue. */
  ghost function Asked(ops: seq<Op>, i: nat): nat
    decreases |ops|
  {
    if ops == [] then 0 else Asked(ops[..|ops| - 1], i) + if ops[|ops| - 1] == Take(i) then 1 else 0
  }

  /** What left a queue left one by one, from the front: no more than were asked for. */
  lemma {:induction false} QueuesGiveOne(ringSize: nat, ops: seq<Op>, i: nat)
    requires i < |Run(ringSize, ops).queues|
    ensures var q := Run(ringSize, ops).queues[i]; |q.puts| - |q.entries| <= Asked(ops, i)
    decreases |ops|
  {
    var front, op := ops[..|ops| - 1], ops[|ops| - 1];
    var s := Run(ringSize, front);
    if i < |s.queues| {
      QueuesGiveOne(ringSize, front, i);
      OneMoveGives(s, ringSize, op, i);
    }
  }

  lemma OneMoveGives(s: State, ringSize: nat, op: Op, i: nat)
    requires i < |s.queues|
    ensures i < |Apply(s, ringSize, op).queues|
    ensures var was, now := s.queues[i], Apply(s, ringSize, op).queues[i];
      |now.puts| - |now.entries| <= |was.puts| - |was.entries| + (if op == Take(i) then 1 else 0)
  {
  }

  /** A sample pushed reaches a queue unless that is full, in which case it says so and keeps what it has. */
  lemma PushReachesQueue(ringSize: nat, ops: seq<Op>, id: string, sample: ValueSample, i: nat)
    requires id in Run(ringSize, ops).subs && i in Run(ringSize, ops).subs[id].streamers
    requires i < |Run(ringSize, ops).queues|
    ensures var q := Run(ringSize, ops).queues[i];
      var after := Apply(Run(ringSize, ops), ringSize, PushTo(id, sample)).queues;
      && i < |after|
      && if q.maxsize <= 0 || |q.entries| < q.maxsize
         then
           && |after[i].entries| == |q.entries| + 1 && after[i].entries[..|q.entries|] == q.entries
           && after[i].entries[|q.entries|].Some? && after[i].full == q.full
           && Shows(after[i].entries[|q.entries|].value, Log(ops, id) + [sample], |Log(ops, id)| + 1)
         else after[i].entries == q.entries && after[i].full
  {
    RunTracks(ringSize, ops, id);
  }

  lemma LeavingHeard(ringSize: nat, front: seq<Op>, op: Op, id: string, i: nat)
    requires id in Run(ringSize, front).subs && i in Run(ringSize, front).subs[id].streamers
    requires !Attached(Apply(Run(ringSize, front), ringSize, op), i)
    ensures var after := Apply(Run(ringSize, front), ringSize, op).queues;
      i < |after| && after[i].sub == id && HeardUpTo(after[i], Log(front, id))
  {
    var s := Run(ringSize, front);
    RunWired(ringSize, front);
    RunHeard(ringSize, front, id, i);
    assert WiredTo(s.subs[id].streamers, s.queues, id);
    LeaveStep(s, ringSize, op, id, i);
    SentinelHeard(s.queues[i], Log(front, id));
  }

  // ------------------------------------------------------------------ the manager

  /** The manager's fields; the queues stand in one list, as consumers keep theirs after a detach. */
  class SubscriptionManager {
    const ringSize: nat
    var subs: map<string, Sub>
    var queues: seq<Queue>

    ghost function View(): State
      reads this
    {
      State(subs, queues)
    }

    constructor (ringSize: nat)
      ensures this.ringSize == ringSize && View() == INITIAL
    {
      this.ringSize := ringSize;
      subs, queues := map[], [];
    }

    method CreateSubscription(id: string)
      modifies this
      ensures View() == Apply(old(View()), ringSize, Create(id))
    {
      subs := subs[id := Sub([], {}, 1, false, [])];
    }

    /** Returns the elements that were registered, for the caller's interest counts. */
    method DeleteSubscription(id: string) returns (elements: set<string>)
      requires Wired(View())
      modifies this
      ensures View() == Apply(old(View()), ringSize, Delete(id))
      ensures elements == if id in old(subs) then old(subs)[id].elements else {}
    {
      if id !in subs {
        return {};
      }
      var sub := subs[id];
      assert WiredTo(sub.streamers, queues, id);
      subs := subs - {id};
      FeedAll(sub.streamers, None);
      elements := sub.elements;
    }

    /** Offer an entry to each of these queues. */
    method FeedAll(targets: seq<nat>, entry: Option<Item>)
      requires NoRepeats(targets) && forall i :: i in targets ==> i < |queues|
      modifies this`queues
      ensures queues == PutTo(old(queues), targets, entry)
    {
      for k := 0 to |targets|
        invariant |queues| == |old(queues)|
        invariant forall i :: 0 <= i < |queues| ==>
          queues[i] == if i in targets[..k] then Put(old(queues)[i], entry) else old(queues)[i]
      {
        assert targets[k] in targets && targets[k] !in targets[..k];
        assert targets[..k + 1] == targets[..k] + [targets[k]];
        queues := queues[targets[k] := Put(queues[targets[k]], entry)];
      }
      assert targets[..|targets|] == targets;
    }

    /** Returns the ids that were not held before, in the order given. */
    method RegisterElements(id: string, elementIds: seq<string>) returns (newly: Option<seq<string>>)
      modifies this
      ensures View() == Apply(old(View()), ringSize, Register(id, elementIds))
      ensures newly.None? <==> id !in old(subs)
      ensures newly.Some? ==> newly.value == Missing(old(subs)[id].elements, elementIds)
    {
      if id !in subs {
        return None;
      }
      var sub := subs[id];
      newly := Some(Missing(sub.elements, elementIds));
      subs := subs[id := sub.(elements := sub.elements + ToSet(elementIds))];
    }

    /** Returns the ids that were held, in the order given. */
    method UnregisterElements(id: string, elementIds: seq<string>) returns (removed: Option<seq<string>>)
      modifies this
      ensures View() == Apply(old(View()), ringSize, Unregister(id, elementIds))
      ensures removed.None? <==> id !in old(subs)
      ensures removed.Some? ==> removed.value == Present(old(subs)[id].elements, elementIds)
    {
      if id !in subs {
        return None;
      }
      var sub := subs[id];
      removed := Some(Present(sub.elements, elementIds));
      subs := subs[id := sub.(elements := sub.elements - ToSet(elementIds))];
    }

    method AttachStream(id: string, maxsize: int) returns (queue: Option<nat>)
      modifies this
      ensures View() == Apply(old(View()), ringSize, Attach(id, maxsize))
      ensures queue == if id in old(subs) then Some(|old(queues)|) else None
    {
      if id !in subs {
        return None;
      }
      var sub := subs[id];
      queue := Some(|queues|);
      queues := queues + [Queue(maxsize, [], id, sub.nextSeq, [], false)];
      subs := subs[id := sub.(streamers := sub.streamers + [queue.value])];
    }

    method DetachStream(id: string, queue: nat)
      modifies this
      ensures View() == Apply(old(View()), ringSize, Detach(id, queue))
    {
      if id in subs {
        subs := subs[id := subs[id].(streamers := RemoveFirst(subs[id].streamers, queue))];
      }
    }

    /** Number the sample, append it to the ring (evicting the oldest item of a full one), feed the queues. */
    method AppendLocked(id: string, sample: ValueSample)
      requires id in subs && WiredTo(subs[id].streamers, queues, id) && |subs[id].ring| <= ringSize
      modifies this
      ensures View() == Append(old(View()), ringSize, id, sample)
    {
      var sub := subs[id];
      var item := Item(sample.elementId, Json.Strip(sample.value), sample.quality, sample.timestamp, sub.nextSeq);
      sub := sub.(nextSeq := sub.nextSeq + 1);
      if |sub.ring| == ringSize {
        sub := sub.(dropped := true);
      }
      var ring := sub.ring + [item];
      if |ring| > ringSize {
        ring := ring[1..];
      }
      subs := subs[id := sub.(ring := ring)];
      FeedAll(sub.streamers, Some(item));
    }

    method PushSample(sample: ValueSample)
      requires Wired(View()) && RingsBounded(subs, ringSize)
      modifies this
      ensures View() == Apply(old(View()), ringSize, Push(sample))
    {
      var todo := subs.Keys;
      ghost var was := View();
      FannedExceptAll(was, ringSize, sample);
      while todo != {}
        invariant todo <= was.subs.Keys
        invariant FannedExcept(was, View(), ringSize, sample, todo)
        decreases todo
      {
        var id :| id in todo;
        FanStep(was, View(), ringSize, sample, todo, id);
        todo := todo - {id};
        if sample.elementId in subs[id].elements {
          AppendLocked(id, sample);
        }
      }
      FannedExceptNone(was, View(), ringSize, sample);
    }

    method PushSampleTo(id: string, sample: ValueSample)
      requires Wired(View()) && RingsBounded(subs, ringSize)
      modifies this
      ensures View() == Apply(old(View()), ringSize, PushTo(id, sample))
    {
      if id in subs {
        assert WiredTo(subs[id].streamers, queues, id);
        AppendLocked(id, sample);
      }
    }

    /** The buffered items past `last` and whether anything was evicted since the previous sync. */
    method SyncSubscription(id: string, last: Option<int>) returns (result: Option<(seq<Item>, bool)>)
      modifies this
      ensures View() == Apply(old(View()), ringSize, Sync(id))
      ensures result == if id in old(subs) then Some((SyncItems(old(subs)[id], last), old(subs)[id].dropped)) else None
    {
      if id !in subs {
        return None;
      }
      var sub := subs[id];
      result := Some((SyncItems(sub, last), sub.dropped));
      subs := subs[id := sub.(dropped := false)];
    }
  }

  predicate RingsBounded(subs: map<string, Sub>, ringSize: nat) {
    forall id :: id in subs ==> |subs[id].ring| <= ringSize
  }

  function Missing(elements: set<string>, elementIds: seq<string>): seq<string> {
    if elementIds == [] then [] else
      (if elementIds[0] !in elements then [elementIds[0]] else []) + Missing(elements, elementIds[1..])
  }

  function Present(elements: set<string>, elementIds: seq<string>): seq<string> {
    if elementIds == [] then [] else
      (if elementIds[0] in elements then [elementIds[0]] else []) + Present(elements, elementIds[1..])
  }

  /** The fan-out with the subscriptions in `todo` still to be served. */
  ghost predicate FannedExcept(was: State, now: State, ringSize: nat, sample: ValueSample, todo: set<string>) {
    var all := Fanned(was, ringSize, sample);
    && now.subs.Keys == was.subs.Keys && |now.queues| == |was.queues|
    && (forall id :: id in was.subs ==> now.subs[id] == if id in todo then was.subs[id] else all.subs[id])
    && (forall i :: 0 <= i < |was.queues| ==> now.queues[i] == if was.queues[i].sub in todo then was.queues[i]
        else all.queues[i])
  }

  lemma FannedExceptNone(was: State, now: State, ringSize: nat, sample: ValueSample)
    requires FannedExcept(was, now, ringSize, sample, {})
    ensures now == Fanned(was, ringSize, sample)
  {
    assert now.subs == Fanned(was, ringSize, sample).subs;
    assert now.queues == Fanned(was, ringSize, sample).queues;
  }

  lemma FannedExceptAll(was: State, ringSize: nat, sample: ValueSample)
    requires Wired(was)
    ensures FannedExcept(was, was, ringSize, sample, was.subs.Keys)
  {
  }

  lemma FanServes(was: State, now: State, ringSize: nat, sample: ValueSample, todo: set<string>, id: string)
    requires Wired(was) && RingsBounded(was.subs, ringSize) && todo <= was.subs.Keys && id in todo
    requires FannedExcept(was, now, ringSize, sample, todo) && sample.elementId in was.subs[id].elements
    ensures FannedExcept(was, Append(now, ringSize, id, sample), ringSize, sample, todo - {id})
  {
    var all, next := Fanned(was, ringSize, sample), Append(now, ringSize, id, sample);
    forall i | 0 <= i < |was.queues|
      ensures next.queues[i] == if was.queues[i].sub in todo - {id} then was.queues[i] else all.queues[i]
    {
      FanQueue(was, now, ringSize, sample, todo, id, i);
    }
  }

  lemma FanQueue(was: State, now: State, ringSize: nat, sample: ValueSample, todo: set<string>, id: string, i: nat)
    requires Wired(was) && todo <= was.subs.Keys && id in todo && i < |was.queues|
    requires FannedExcept(was, now, ringSize, sample, todo) && sample.elementId in was.subs[id].elements
    ensures Append(now, ringSize, id, sample).queues[i]
         == if was.queues[i].sub in todo - {id} then was.queues[i] else Fanned(was, ringSize, sample).queues[i]
  {
    assert WiredTo(was.subs[id].streamers, was.queues, id);
    assert i in was.subs[id].streamers ==> was.queues[i].sub == id && now.queues[i].sub == id;
  }

  lemma FanPasses(was: State, now: State, ringSize: nat, sample: ValueSample, todo: set<string>, id: string)
    requires Wired(was) && RingsBounded(was.subs, ringSize) && todo <= was.subs.Keys && id in todo
    requires FannedExcept(was, now, ringSize, sample, todo) && sample.elementId !in was.subs[id].elements
    ensures FannedExcept(was, now, ringSize, sample, todo - {id})
  {
    assert WiredTo(was.subs[id].streamers, was.queues, id);
  }

  /** Serving one more subscription, or passing it over when it does not hold the element. */
  lemma FanStep(was: State, now: State, ringSize: nat, sample: ValueSample, todo: set<string>, id: string)
    requires Wired(was) && RingsBounded(was.subs, ringSize) && todo <= was.subs.Keys && id in todo
    requires FannedExcept(was, now, ringSize, sample, todo)
    ensures id in now.subs && now.subs[id] == was.subs[id]
    ensures WiredTo(now.subs[id].streamers, now.queues, id) && |now.subs[id].ring| <= ringSize
    ensures var next := if sample.elementId in now.subs[id].elements then Append(now, ringSize, id, sample) else now;
      FannedExcept(was, next, ringSize, sample, todo - {id})
  {
    assert WiredTo(was.subs[id].streamers, was.queues, id);
    assert forall i :: i in was.subs[id].streamers ==> was.queues[i].sub == id && now.queues[i].sub == id;
    if sample.elementId in was.subs[id].elements {
      FanServes(was, now, ringSize, sample, todo, id);
    } else {
      FanPasses(was, now, ringSize, sample, todo, id);
    }
  }
}
