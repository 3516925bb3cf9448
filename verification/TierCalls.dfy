/** One publishing interval of a binding at its await points: calls wait for the server while others go on, and no
    lock orders them (adapters/asyncua/upstream.py). */
module TierCalls {
  import opened Neutral
  import opened MonitoredTiers

  /** Where a call waits: for a subscription of the given session, with the new one in hand, for items in a
      subscription, with their handles in hand, for its items to go, or for the subscription to go. */
  datatype Call =
    | Creating(raws: seq<string>, session: nat)
    | Made(raws: seq<string>, sub: nat)
    | Asking(nodes: seq<string>, sub: nat)
    | Granted(nodes: seq<string>, handles: seq<int>)
    | Dropping(sub: nat, bucket: nat)
    | Deleting

  /** The tier's server subscription and bucket, all buckets so far by identity, the live items of each subscription
      made for the tier, the numbers of subscriptions and sessions so far, and the calls under way. */
  datatype Tier = Tier(
    sub: Option<nat>, bucket: Option<nat>, buckets: seq<map<string, int>>, server: map<nat, map<int, string>>,
        made: nat, session: nat, calls: map<nat, Call>)

  const IDLE := Tier(None, None, [], map[], 0, 0, map[])

  datatype Move =
    | BeginAdd(call: nat, raws: seq<string>)
    | BeginRemove(call: nat, raws: seq<string>)
    | Answer(call: nat, handles: seq<int>)
    | Fail(call: nat)
    | Resume(call: nat)
    | Lose

  function Contents(t: Tier): map<string, int> {
    if t.bucket.Some? && t.bucket.value < |t.buckets| then t.buckets[t.bucket.value] else map[]
  }

  /** The server answers requests of the present session and of its own subscriptions, with handles that are new
      there; a request can fail; a call with its answer in hand goes on. */
  ghost predicate Enabled(t: Tier, move: Move) {
    match move
    case BeginAdd(c, _) => c !in t.calls
    case BeginRemove(c, _) => c !in t.calls
    case Answer(c, handles) => c in t.calls && Answers(t, t.calls[c], handles)
    case Fail(c) => c in t.calls && (t.calls[c].Creating? || t.calls[c].Asking?)
    case Resume(c) => c in t.calls && Ready(t, t.calls[c])
    case Lose => true
  }

  ghost predicate Answers(t: Tier, call: Call, handles: seq<int>) {
    match call
    case Creating(_, session) => session == t.session
    case Asking(nodes, s) =>
      s in t.server && |handles| == |nodes| && NoRepeats(handles) && forall h :: h in handles ==> h !in t.server[s]
    case _ => false
  }

  predicate Ready(t: Tier, call: Call) {
    match call
    case Made(_, _) => true
    case Granted(nodes, handles) => |handles| == |nodes|
    case Dropping(_, b) => b < |t.buckets|
    case Deleting => true
    case _ => false
  }

  /** From the check of what is monitored to the request for the rest. */
  function Ask(t: Tier, c: nat, s: nat, raws: seq<string>): Tier {
    var nodes := NewIds(Contents(t), raws);
    t.(calls := if nodes == [] then t.calls - {c} else t.calls[c := Asking(nodes, s)])
  }

  /** The handles are filed in the bucket of now, which may have to be made. */
  function Note(t: Tier, c: nat, nodes: seq<string>, handles: seq<int>): Tier
    requires |handles| == |nodes|
  {
    var noted := Noted(Contents(t), nodes, handles);
    if t.bucket.Some? && t.bucket.value < |t.buckets|
    then t.(buckets := t.buckets[t.bucket.value := noted], calls := t.calls - {c})
    else t.(bucket := Some(|t.buckets|), buckets := t.buckets + [noted], calls := t.calls - {c})
  }

  /** Does a removal find anything to do? */
  predicate Removes(t: Tier, raws: seq<string>) {
    t.sub.Some? && exists n :: n in raws && n in Contents(t)
  }

  /** The nodes leave the bucket and the server is asked to drop their items. */
  function Drop(t: Tier, c: nat, raws: seq<string>): Tier
    requires Removes(t, raws)
  {
    var s, b, gone := t.sub.value, t.bucket.value, ToSet(raws);
    var server := if s in t.server then t.server[s := t.server[s] - Handles(Contents(t), gone)] else t.server;
    t.(buckets := t.buckets[b := Contents(t) - gone], server := server, calls := t.calls[c := Dropping(s, b)])
  }

  function Moved(t: Tier, move: Move): Tier
    requires Enabled(t, move)
  {
    match move
    case BeginAdd(c, raws) =>
      if t.sub.Some? then Ask(t, c, t.sub.value, raws) else t.(calls := t.calls[c := Creating(raws, t.session)])
    case BeginRemove(c, raws) => if Removes(t, raws) then Drop(t, c, raws) else t
    case Answer(c, handles) =>
      (match t.calls[c]
       case Creating(raws, _) =>
         t.(server := t.server[t.made := map[]], made := t.made + 1, calls := t.calls[c := Made(raws, t.made)])
       case Asking(nodes, s) =>
         t.(server := t.server[s := Created(t.server[s], nodes, handles)],
            calls := t.calls[c := Granted(nodes, handles)]))
    case Fail(c) => t.(calls := t.calls - {c})
    case Resume(c) =>
      (match t.calls[c]
       case Made(raws, s) => Ask(t.(sub := Some(s)), c, s, raws)
       case Granted(nodes, handles) => Note(t, c, nodes, handles)
       case Dropping(s, b) =>
         if t.buckets[b] != map[] then t.(calls := t.calls - {c})
         else t.(bucket := None, server := t.server - {s}, calls := t.calls[c := Deleting])
       case Deleting => t.(sub := None, calls := t.calls - {c}))
    case Lose => t.(sub := None, bucket := None, server := map[], session := t.session + 1)
  }

  /** A request that will never be answered, its session or subscription being gone, or a removal that has left
      nodes in a bucket of before: its end changes nothing. */
  predicate Stale(t: Tier, call: Call) {
    || (call.Creating? && call.session != t.session)
    || (call.Asking? && call.sub !in t.server)
    || (call.Dropping? && t.bucket != Some(call.bucket) && !Emptied(t, call.bucket))
  }

  predicate Emptied(t: Tier, bucket: nat) {
    bucket < |t.buckets| && t.buckets[bucket] == map[]
  }

  /** No call is under way, except such ones. */
  predicate Quiet(t: Tier) {
    forall c :: c in t.calls ==> Stale(t, t.calls[c])
  }

  /** A removal that has emptied its bucket and takes the subscription with it. */
  predicate Ends(t: Tier, call: Call) {
    call.Deleting? || (call.Dropping? && Emptied(t, call.bucket))
  }

  predicate Ending(t: Tier) {
    exists c :: c in t.calls && Ends(t, t.calls[c])
  }

  // ------------------------------------------------------------------ what is true of a quiet tier

  /** The tier as one interval of a binding. */
  function AsTiers(t: Tier, pub: int, rawByWire: map<string, string>): Tiers {
    Tiers(if t.sub.Some? then {pub} else {}, if t.bucket.Some? then map[pub := Contents(t)] else map[],
          if t.sub.Some? then map[pub := if t.sub.value in t.server then t.server[t.sub.value] else map[]] else map[],
          rawByWire)
  }

  /** The bucket is the server's live items, and the server keeps no other subscription for the tier. */
  ghost predicate True(t: Tier) {
    && Valid(AsTiers(t, 0, map[]))
    && t.server.Keys == (if t.sub.Some? then {t.sub.value} else {})
  }

  // ------------------------------------------------------------------ what careful calls keep

  function NodesOf(call: Call): seq<string> {
    if call.Asking? || call.Granted? then call.nodes else []
  }

  /** No subscription: at most one call is making one. */
  ghost predicate Starting(t: Tier) {
    && t.bucket.None?
    && (forall c :: c in t.calls && !Stale(t, t.calls[c]) ==> t.calls[c].Creating? || t.calls[c].Made?)
    && (forall c, d :: c in t.calls && d in t.calls && !Stale(t, t.calls[c]) && !Stale(t, t.calls[d]) ==> c == d)
    && (forall c :: c in t.calls && t.calls[c].Made? ==> t.server == map[t.calls[c].sub := map[]])
    && ((forall c :: c in t.calls ==> !t.calls[c].Made?) ==> t.server == map[])
  }

  /** A removal ends the tier, alone. */
  ghost predicate Shrinking(t: Tier, s: nat) {
    && (forall c, d :: c in t.calls && d in t.calls && !Stale(t, t.calls[c]) && !Stale(t, t.calls[d]) ==> c == d)
    && (forall c :: c in t.calls && t.calls[c].Dropping? && Emptied(t, t.calls[c].bucket) ==>
          && t.calls[c].sub == s && t.bucket == Some(t.calls[c].bucket)
          && t.server.Keys == {s} && Mirrors(Contents(t), t.server[s]))
    && (forall c :: c in t.calls && t.calls[c].Deleting? ==> t.bucket.None? && t.server == map[])
  }

  /** The handles of a granted call are live items of its nodes. */
  ghost predicate Holds(items: map<int, string>, call: Call) {
    call.Granted? ==>
      && |call.handles| == |call.nodes|
      && forall i :: 0 <= i < |call.handles| ==> call.handles[i] in items && items[call.handles[i]] == call.nodes[i]
  }

  predicate GrantedTo(t: Tier, c: nat, h: int) {
    c in t.calls && t.calls[c].Granted? && h in t.calls[c].handles
  }

  /** The bucket, or a granted call, knows the item. */
  ghost predicate Known(t: Tier, h: int, n: string) {
    (n in Contents(t) && Contents(t)[n] == h) || exists c: nat :: GrantedTo(t, c, h)
  }

  /** Adds are under way, each for nodes of its own, and removals that leave something. */
  ghost predicate Growing(t: Tier, s: nat) {
    && t.server.Keys == {s}
    && (t.bucket.Some? ==> Contents(t) != map[])
    && (forall c :: c in t.calls && !Stale(t, t.calls[c]) ==>
          || t.calls[c].Asking? || t.calls[c].Granted?
          || (t.calls[c].Dropping? && t.bucket == Some(t.calls[c].bucket)))
    && (forall n :: n in Contents(t) ==> Contents(t)[n] in t.server[s] && t.server[s][Contents(t)[n]] == n)
    && (forall h :: h in t.server[s] ==> Known(t, h, t.server[s][h]))
    && (forall c :: c in t.calls ==> Holds(t.server[s], t.calls[c]))
    && (forall c :: c in t.calls && !Stale(t, t.calls[c]) && !t.calls[c].Dropping? ==> AsksApart(t, c))
  }

  /** A call's nodes are new, come up once, and no other call under way has them. */
  ghost predicate AsksApart(t: Tier, c: nat)
    requires c in t.calls
  {
    && NodesOf(t.calls[c]) != [] && NoRepeats(NodesOf(t.calls[c]))
    && (forall n :: n in NodesOf(t.calls[c]) ==> n !in Contents(t))
    && forall d, n :: d in t.calls && d != c && !Stale(t, t.calls[d]) && n in NodesOf(t.calls[c])
         ==> n !in NodesOf(t.calls[d])
  }

  predicate FormedCall(call: Call, session: nat, made: nat, buckets: nat) {
    match call
    case Creating(_, k) => k <= session
    case Made(_, s) => s < made
    case Asking(nodes, s) => nodes != [] && s < made
    case Granted(nodes, handles) => nodes != [] && |handles| == |nodes|
    case Dropping(_, b) => b < buckets
    case Deleting => true
  }

  /** Subscriptions and sessions are numbered as they come, and no call asks for nothing. */
  ghost predicate Formed(t: Tier) {
    && (t.sub.Some? ==> t.sub.value < t.made) && (t.bucket.Some? ==> t.bucket.value < |t.buckets|)
    && (forall s :: s in t.server ==> s < t.made)
    && (forall c :: c in t.calls ==> FormedCall(t.calls[c], t.session, t.made, |t.buckets|))
  }

  ghost predicate Sound(t: Tier) {
    && Formed(t)
    && if t.sub.None? then Starting(t) else if Ending(t) then Shrinking(t, t.sub.value) else Growing(t, t.sub.value)
  }

  lemma SoundQuietIsTrue(t: Tier)
    requires Sound(t) && Quiet(t)
    ensures True(t)
  {
  }

  /** What makes a move careful, to be seen before it is made: nothing begins while a removal ends the tier, and no
      add while the tier's subscription is being made; an add asks for no node twice and for none that another call
      has asked for; a removal that empties the bucket begins alone; the session is not lost with an answer in hand
      or a removal ending the tier. */
  ghost predicate Careful(t: Tier, move: Move) {
    match move
    case BeginAdd(c, raws) =>
      && !Ending(t)
      && if t.sub.None? then Quiet(t) else AsksAnew(t, NewIds(Contents(t), raws))
    case BeginRemove(c, raws) => Removes(t, raws) ==> Quiet(t) || (!Ending(t) && Contents(t) - ToSet(raws) != map[])
    case Resume(c) => c in t.calls && t.calls[c].Made? ==> NoRepeats(NewIds(Contents(t), t.calls[c].raws))
    case Lose => forall c :: c in t.calls ==>
      t.calls[c].Creating? || t.calls[c].Asking? || (t.calls[c].Dropping? && !Emptied(t, t.calls[c].bucket))
    case _ => true
  }

  ghost predicate AsksAnew(t: Tier, nodes: seq<string>) {
    && NoRepeats(nodes)
    && forall c, n :: c in t.calls && !Stale(t, t.calls[c]) && n in nodes ==> n !in NodesOf(t.calls[c])
  }

  lemma AskApart(t: Tier, c: nat, s: nat, raws: seq<string>, d: nat)
    requires Growing(t, s) && c !in t.calls && AsksAnew(t, NewIds(Contents(t), raws))
    requires var after := Ask(t, c, s, raws);
      d in after.calls && !Stale(after, after.calls[d]) && !after.calls[d].Dropping?
    ensures AsksApart(Ask(t, c, s, raws), d)
  {
    NewIdsExact(Contents(t), raws);
    assert d != c ==> AsksApart(t, d);
  }

  lemma AskKeepsGrowing(t: Tier, c: nat, s: nat, raws: seq<string>)
    requires Growing(t, s) && c !in t.calls && AsksAnew(t, NewIds(Contents(t), raws))
    ensures Growing(Ask(t, c, s, raws), s)
  {
    var after := Ask(t, c, s, raws);
    assert Contents(after) == Contents(t);
    forall h | h in t.server[s] ensures Known(after, h, t.server[s][h]) {
      assert Known(t, h, t.server[s][h]);
      assert forall d: nat :: GrantedTo(t, d, h) ==> GrantedTo(after, d, h);
    }
    forall d | d in after.calls && !Stale(after, after.calls[d]) && !after.calls[d].Dropping?
      ensures AsksApart(after, d) {
      AskApart(t, c, s, raws, d);
    }
  }

  lemma AskIsSound(t: Tier, c: nat, raws: seq<string>)
    requires Formed(t) && t.sub.Some? && t.sub.value < t.made && c !in t.calls && Growing(t, t.sub.value)
    requires AsksAnew(t, NewIds(Contents(t), raws))
    ensures Sound(Ask(t, c, t.sub.value, raws))
  {
    AskKeepsGrowing(t, c, t.sub.value, raws);
    assert t.sub.value in t.server;
  }

  lemma {:induction false} NotedAt(bucket: map<string, int>, nodes: seq<string>, handles: seq<int>, k: nat)
    requires |handles| == |nodes| && NoRepeats(nodes) && k < |nodes|
    ensures nodes[k] in Noted(bucket, nodes, handles) && Noted(bucket, nodes, handles)[nodes[k]] == handles[k]
    decreases |nodes|
  {
    if k < |nodes| - 1 {
      NotedAt(bucket, nodes[..|nodes| - 1], handles[..|nodes| - 1], k);
    }
  }

  lemma {:induction false} NotedElse(bucket: map<string, int>, nodes: seq<string>, handles: seq<int>, n: string)
    requires |handles| == |nodes| && n !in nodes
    ensures n in Noted(bucket, nodes, handles) <==> n in bucket
    ensures n in bucket ==> Noted(bucket, nodes, handles)[n] == bucket[n]
    decreases |nodes|
  {
    if nodes != [] {
      NotedElse(bucket, nodes[..|nodes| - 1], handles[..|nodes| - 1], n);
    }
  }

  lemma {:induction false} CreatedElse(items: map<int, string>, nodes: seq<string>, handles: seq<int>, h: int)
    requires |handles| == |nodes| && h !in handles
    ensures h in Created(items, nodes, handles) <==> h in items
    ensures h in items ==> Created(items, nodes, handles)[h] == items[h]
    decreases |nodes|
  {
    if nodes != [] {
      CreatedElse(items, nodes[..|nodes| - 1], handles[..|nodes| - 1], h);
    }
  }

  lemma AddKeepsSound(t: Tier, c: nat, raws: seq<string>)
    requires Sound(t) && Enabled(t, BeginAdd(c, raws)) && Careful(t, BeginAdd(c, raws))
    ensures Sound(Moved(t, BeginAdd(c, raws)))
  {
    if t.sub.Some? {
      assert t.sub.value in t.server;
      AskIsSound(t, c, raws);
    }
  }

  lemma AllKnownMirrors(t: Tier, s: nat)
    requires Growing(t, s) && forall c :: c in t.calls ==> !t.calls[c].Granted?
    ensures Mirrors(Contents(t), t.server[s])
  {
    forall h | h in t.server[s] ensures t.server[s][h] in Contents(t) && Contents(t)[t.server[s][h]] == h {
      assert Known(t, h, t.server[s][h]);
    }
  }

  lemma DropKnown(t: Tier, c: nat, raws: seq<string>, s: nat, h: int)
    requires Formed(t) && t.sub == Some(s) && Growing(t, s) && c !in t.calls && Removes(t, raws)
    requires h in Drop(t, c, raws).server[s]
    ensures Known(Drop(t, c, raws), h, t.server[s][h])
  {
    var after := Drop(t, c, raws);
    assert Contents(after) == Contents(t) - ToSet(raws);
    assert Known(t, h, t.server[s][h]);
    assert forall d: nat :: GrantedTo(t, d, h) ==> GrantedTo(after, d, h);
  }

  /** A granted call's items stay, as its nodes are not in the bucket. */
  lemma DropHolds(t: Tier, c: nat, raws: seq<string>, s: nat, d: nat)
    requires Formed(t) && t.sub == Some(s) && Growing(t, s) && c !in t.calls && Removes(t, raws)
    requires d in t.calls
    ensures Holds(Drop(t, c, raws).server[s], t.calls[d])
  {
    if t.calls[d].Granted? {
      assert AsksApart(t, d) && Holds(t.server[s], t.calls[d]);
      var handles := t.calls[d].handles;
      forall i | 0 <= i < |handles| ensures handles[i] !in Handles(Contents(t), ToSet(raws)) {
        assert t.server[s][handles[i]] == t.calls[d].nodes[i];
      }
    }
  }

  lemma DropKeepsGrowing(t: Tier, c: nat, raws: seq<string>, s: nat)
    requires Formed(t) && t.sub == Some(s) && Growing(t, s) && c !in t.calls && Removes(t, raws)
    requires Contents(t) - ToSet(raws) != map[]
    ensures Growing(Drop(t, c, raws), s)
  {
    var after := Drop(t, c, raws);
    assert Contents(after) == Contents(t) - ToSet(raws);
    forall n | n in Contents(after) ensures Contents(t)[n] !in Handles(Contents(t), ToSet(raws)) {
      assert t.server[s][Contents(t)[n]] == n;
      assert forall m :: m in Contents(t) ==> t.server[s][Contents(t)[m]] == m;
    }
    forall h | h in after.server[s] ensures Known(after, h, after.server[s][h]) {
      DropKnown(t, c, raws, s, h);
    }
    forall d | d in after.calls ensures Holds(after.server[s], after.calls[d]) {
      if d != c {
        DropHolds(t, c, raws, s, d);
      }
    }
    forall d | d in after.calls && !Stale(after, after.calls[d]) && !after.calls[d].Dropping?
      ensures AsksApart(after, d) {
      assert AsksApart(t, d);
    }
  }

  lemma RemoveKeepsSound(t: Tier, c: nat, raws: seq<string>)
    requires Sound(t) && Enabled(t, BeginRemove(c, raws)) && Careful(t, BeginRemove(c, raws))
    ensures Sound(Moved(t, BeginRemove(c, raws)))
  {
    if Removes(t, raws) {
      var after, s := Moved(t, BeginRemove(c, raws)), t.sub.value;
      assert Growing(t, s);
      FormedStays(t, BeginRemove(c, raws));
      assert Contents(after) == Contents(t) - ToSet(raws);
      if Contents(after) == map[] {
        AllKnownMirrors(t, s);
        RestMirrors(Contents(t), t.server[s], ToSet(raws));
        assert c in after.calls && Ends(after, after.calls[c]);
        assert Shrinking(after, s);
      } else {
        DropKeepsGrowing(t, c, raws, s);
        NoEndByDrop(t, c, raws);
      }
    }
  }

  lemma NoEndByDrop(t: Tier, c: nat, raws: seq<string>)
    requires Formed(t) && Removes(t, raws) && c !in t.calls && Contents(t) - ToSet(raws) != map[] && !Ending(t)
    ensures !Ending(Drop(t, c, raws))
  {
    var after := Drop(t, c, raws);
    forall d | d in after.calls ensures !Ends(after, after.calls[d]) {
      assert d != c ==> !Ends(t, t.calls[d]);
    }
  }

  lemma ForgetKeepsGrowing(t: Tier, c: nat, s: nat)
    requires Growing(t, s) && c in t.calls && !t.calls[c].Granted?
    ensures Growing(t.(calls := t.calls - {c}), s)
  {
    var after := t.(calls := t.calls - {c});
    assert Contents(after) == Contents(t);
    forall h | h in after.server[s] ensures Known(after, h, after.server[s][h]) {
      assert Known(t, h, t.server[s][h]);
      assert forall d: nat :: GrantedTo(t, d, h) ==> GrantedTo(after, d, h);
    }
    forall d | d in after.calls && !Stale(after, after.calls[d]) && !after.calls[d].Dropping?
      ensures AsksApart(after, d) {
      assert AsksApart(t, d);
    }
  }

  /** A call that has nothing in hand and ends nothing can go. */
  lemma ForgetKeepsSound(t: Tier, c: nat)
    requires Sound(t) && c in t.calls && !t.calls[c].Made? && !t.calls[c].Granted? && !Ends(t, t.calls[c])
    ensures Sound(t.(calls := t.calls - {c}))
  {
    var after := t.(calls := t.calls - {c});
    assert Ending(after) <==> Ending(t) by {
      assert forall d: nat :: d in t.calls && Ends(t, t.calls[d]) ==> d in after.calls;
    }
    if t.sub.None? {
      assert forall d: nat :: d in t.calls && t.calls[d].Made? ==> d in after.calls;
    } else if !Ending(t) {
      ForgetKeepsGrowing(t, c, t.sub.value);
    }
  }

  lemma LoseKeepsSound(t: Tier)
    requires Sound(t) && Careful(t, Lose)
    ensures Sound(Moved(t, Lose)) && Quiet(Moved(t, Lose))
  {
  }

  lemma CreateKeepsSound(t: Tier, c: nat, handles: seq<int>)
    requires Sound(t) && Enabled(t, Answer(c, handles)) && t.calls[c].Creating?
    ensures Sound(Moved(t, Answer(c, handles)))
  {
    assert !Stale(t, t.calls[c]);
    assert t.sub.None?;
    var after := Moved(t, Answer(c, handles));
    assert t.server == map[];
    assert after.server == map[t.made := map[]] && after.calls[c].Made?;
    FormedStays(t, Answer(c, handles));
    assert Starting(after);
  }

  lemma GrantHolds(t: Tier, c: nat, s: nat, handles: seq<int>, d: nat)
    requires Growing(t, s) && Enabled(t, Answer(c, handles)) && t.calls[c] == Asking(t.calls[c].nodes, s)
    requires d in t.calls
    ensures var after := Moved(t, Answer(c, handles)); Holds(after.server[s], after.calls[d])
  {
    var nodes, items := t.calls[c].nodes, t.server[s];
    if d == c {
      forall i | 0 <= i < |handles|
        ensures handles[i] in Created(items, nodes, handles) && Created(items, nodes, handles)[handles[i]] == nodes[i] {
        CreatedHolds(items, nodes, handles, i);
      }
    } else if t.calls[d].Granted? {
      assert Holds(items, t.calls[d]);
      forall i | 0 <= i < |t.calls[d].handles| ensures t.calls[d].handles[i] !in handles {
        assert t.calls[d].handles[i] in items;
        assert forall h :: h in handles ==> h !in items;
      }
      forall i | 0 <= i < |t.calls[d].handles| ensures var h := t.calls[d].handles[i];
        h in Created(items, nodes, handles) && Created(items, nodes, handles)[h] == t.calls[d].nodes[i] {
        CreatedElse(items, nodes, handles, t.calls[d].handles[i]);
      }
    }
  }

  lemma GrantKnown(t: Tier, c: nat, s: nat, handles: seq<int>, h: int)
    requires Growing(t, s) && Enabled(t, Answer(c, handles)) && t.calls[c] == Asking(t.calls[c].nodes, s)
    requires h in Moved(t, Answer(c, handles)).server[s]
    ensures var after := Moved(t, Answer(c, handles)); Known(after, h, after.server[s][h])
  {
    var after, nodes, items := Moved(t, Answer(c, handles)), t.calls[c].nodes, t.server[s];
    CreatedKeys(items, nodes, handles);
    if h in handles {
      assert GrantedTo(after, c, h);
    } else {
      CreatedElse(items, nodes, handles, h);
      assert Known(t, h, items[h]);
      assert forall d: nat :: GrantedTo(t, d, h) ==> GrantedTo(after, d, h);
    }
  }

  lemma GrantKeepsGrowing(t: Tier, c: nat, s: nat, handles: seq<int>)
    requires Growing(t, s) && Enabled(t, Answer(c, handles)) && t.calls[c] == Asking(t.calls[c].nodes, s)
    ensures Growing(Moved(t, Answer(c, handles)), s)
  {
    var after := Moved(t, Answer(c, handles));
    assert after.server.Keys == {s} && Contents(after) == Contents(t);
    forall n | n in Contents(t) ensures Contents(t)[n] in after.server[s] && after.server[s][Contents(t)[n]] == n {
      CreatedElse(t.server[s], t.calls[c].nodes, handles, Contents(t)[n]);
    }
    forall h | h in after.server[s] ensures Known(after, h, after.server[s][h]) {
      GrantKnown(t, c, s, handles, h);
    }
    forall d | d in after.calls ensures Holds(after.server[s], after.calls[d]) {
      GrantHolds(t, c, s, handles, d);
    }
    forall d | d in after.calls && !Stale(after, after.calls[d]) && !after.calls[d].Dropping?
      ensures AsksApart(after, d) {
      assert AsksApart(t, d);
    }
  }

  lemma GrantKeepsSound(t: Tier, c: nat, handles: seq<int>)
    requires Sound(t) && Enabled(t, Answer(c, handles)) && t.calls[c].Asking?
    ensures Sound(Moved(t, Answer(c, handles)))
  {
    var s := t.calls[c].sub;
    assert !Stale(t, t.calls[c]) && t.sub == Some(s) && !Ending(t);
    GrantKeepsGrowing(t, c, s, handles);
    FormedStays(t, Answer(c, handles));
  }

  lemma MadeIsAsk(t: Tier, c: nat)
    requires Enabled(t, Resume(c)) && t.calls[c].Made?
    ensures var raws, s := t.calls[c].raws, t.calls[c].sub;
      Moved(t, Resume(c)) == Ask(t.(sub := Some(s), calls := t.calls - {c}), c, s, raws)
  {
    var asking := Asking(NewIds(Contents(t), t.calls[c].raws), t.calls[c].sub);
    assert (t.calls - {c})[c := asking] == t.calls[c := asking] && t.calls - {c} - {c} == t.calls - {c};
  }

  lemma MadeKeepsSound(t: Tier, c: nat)
    requires Sound(t) && Enabled(t, Resume(c)) && Careful(t, Resume(c)) && t.calls[c].Made?
    ensures Sound(Moved(t, Resume(c)))
  {
    var raws, s := t.calls[c].raws, t.calls[c].sub;
    assert t.sub.None? && t.server == map[s := map[]];
    var alone := t.(sub := Some(s), calls := t.calls - {c});
    assert Contents(alone) == map[];
    assert Quiet(alone);
    assert Growing(alone, s);
    AskIsSound(alone, c, raws);
    MadeIsAsk(t, c);
  }

  lemma NoteMirrors(t: Tier, c: nat, s: nat, n: string)
    requires Growing(t, s) && Enabled(t, Resume(c)) && t.calls[c].Granted?
    requires n in Noted(Contents(t), t.calls[c].nodes, t.calls[c].handles)
    ensures var noted := Noted(Contents(t), t.calls[c].nodes, t.calls[c].handles);
      noted[n] in t.server[s] && t.server[s][noted[n]] == n
  {
    var nodes, handles := t.calls[c].nodes, t.calls[c].handles;
    assert Holds(t.server[s], t.calls[c]) && AsksApart(t, c);
    if n in nodes {
      var k :| 0 <= k < |nodes| && nodes[k] == n;
      NotedAt(Contents(t), nodes, handles, k);
    } else {
      NotedElse(Contents(t), nodes, handles, n);
    }
  }

  lemma NoteKnown(t: Tier, c: nat, s: nat, h: int)
    requires Growing(t, s) && Enabled(t, Resume(c)) && t.calls[c].Granted? && h in t.server[s]
    requires t.bucket.Some? ==> t.bucket.value < |t.buckets|
    ensures Known(Moved(t, Resume(c)), h, t.server[s][h])
  {
    var after, nodes, handles, n := Moved(t, Resume(c)), t.calls[c].nodes, t.calls[c].handles, t.server[s][h];
    assert Contents(after) == Noted(Contents(t), nodes, handles);
    assert Holds(t.server[s], t.calls[c]) && AsksApart(t, c) && Known(t, h, n);
    if h in handles {
      var k :| 0 <= k < |handles| && handles[k] == h;
      NotedAt(Contents(t), nodes, handles, k);
    } else if n in Contents(t) && Contents(t)[n] == h {
      assert n !in nodes;
      NotedElse(Contents(t), nodes, handles, n);
    } else {
      var d: nat :| GrantedTo(t, d, h);
      assert GrantedTo(after, d, h);
    }
  }

  lemma NoteApart(t: Tier, c: nat, s: nat, d: nat)
    requires Growing(t, s) && Enabled(t, Resume(c)) && t.calls[c].Granted?
    requires t.bucket.Some? ==> t.bucket.value < |t.buckets|
    requires d in t.calls && d != c && !Stale(t, t.calls[d]) && !t.calls[d].Dropping?
    ensures AsksApart(Moved(t, Resume(c)), d)
  {
    var nodes, handles := t.calls[c].nodes, t.calls[c].handles;
    assert Contents(Moved(t, Resume(c))) == Noted(Contents(t), nodes, handles);
    assert AsksApart(t, d) && AsksApart(t, c);
    forall n | n in NodesOf(t.calls[d]) ensures n !in Noted(Contents(t), nodes, handles) {
      NotedElse(Contents(t), nodes, handles, n);
    }
  }

  lemma NoteKeepsGrowing(t: Tier, c: nat, s: nat)
    requires Growing(t, s) && Enabled(t, Resume(c)) && t.calls[c].Granted?
    requires t.bucket.Some? ==> t.bucket.value < |t.buckets|
    ensures Growing(Moved(t, Resume(c)), s)
  {
    var after, nodes, handles := Moved(t, Resume(c)), t.calls[c].nodes, t.calls[c].handles;
    assert Contents(after) == Noted(Contents(t), nodes, handles);
    assert Contents(after) != map[] by {
      assert AsksApart(t, c);
      NotedAt(Contents(t), nodes, handles, 0);
    }
    forall n | n in Contents(after) ensures Contents(after)[n] in t.server[s] && t.server[s][Contents(after)[n]] == n {
      NoteMirrors(t, c, s, n);
    }
    forall h | h in t.server[s] ensures Known(after, h, t.server[s][h]) {
      NoteKnown(t, c, s, h);
    }
    forall d | d in after.calls && !Stale(after, after.calls[d]) && !after.calls[d].Dropping?
      ensures AsksApart(after, d) {
      NoteApart(t, c, s, d);
    }
  }

  lemma NoteKeepsSound(t: Tier, c: nat)
    requires Sound(t) && Enabled(t, Resume(c)) && t.calls[c].Granted?
    ensures Sound(Moved(t, Resume(c)))
  {
    assert t.sub.Some? && !Ending(t);
    NoteKeepsGrowing(t, c, t.sub.value);
    assert !Ending(Moved(t, Resume(c)));
  }

  lemma EndKeepsSound(t: Tier, c: nat)
    requires Sound(t) && Enabled(t, Resume(c)) && Ends(t, t.calls[c])
    ensures Sound(Moved(t, Resume(c)))
  {
    assert t.sub.Some? && Ending(t) && Shrinking(t, t.sub.value);
    var after := Moved(t, Resume(c));
    FormedStays(t, Resume(c));
    assert forall d :: d in t.calls && d != c ==> Stale(t, t.calls[d]);
    if t.calls[c].Dropping? {
      assert after.server == map[];
      assert Ends(after, after.calls[c]);
    } else {
      assert Starting(after);
    }
  }

  lemma MoveKeepsSound(t: Tier, move: Move)
    requires Sound(t) && Enabled(t, move) && Careful(t, move)
    ensures Sound(Moved(t, move))
  {
    match move
    case BeginAdd(c, raws) => AddKeepsSound(t, c, raws);
    case BeginRemove(c, raws) => RemoveKeepsSound(t, c, raws);
    case Answer(c, handles) =>
      if t.calls[c].Creating? {
        CreateKeepsSound(t, c, handles);
      } else {
        GrantKeepsSound(t, c, handles);
      }
    case Fail(c) => ForgetKeepsSound(t, c);
    case Resume(c) =>
      if t.calls[c].Made? {
        MadeKeepsSound(t, c);
      } else if t.calls[c].Granted? {
        NoteKeepsSound(t, c);
      } else if Ends(t, t.calls[c]) {
        EndKeepsSound(t, c);
      } else {
        ForgetKeepsSound(t, c);
      }
    case Lose => LoseKeepsSound(t);
  }

  // ------------------------------------------------------------------ every run

  /** The states a tier passes through, from the start on, with calls overlapping in any way. */
  ghost predicate IsTierRun(states: seq<Tier>, moves: seq<Move>) {
    && |states| == |moves| + 1 && states[0] == IDLE && Follows(states, moves)
  }

  ghost predicate Follows(states: seq<Tier>, moves: seq<Move>)
    requires |states| == |moves| + 1
  {
    forall k :: 0 <= k < |moves| ==> Enabled(states[k], moves[k]) && states[k + 1] == Moved(states[k], moves[k])
  }

  ghost predicate AllCareful(states: seq<Tier>, moves: seq<Move>)
    requires |states| == |moves| + 1
  {
    forall k :: 0 <= k < |moves| ==> Careful(states[k], moves[k])
  }

  lemma {:induction false} CarefulRunIsSound(states: seq<Tier>, moves: seq<Move>, k: nat)
    requires IsTierRun(states, moves) && AllCareful(states, moves) && k < |states|
    ensures Sound(states[k])
  {
    if k > 0 {
      CarefulRunIsSound(states, moves, k - 1);
      MoveKeepsSound(states[k - 1], moves[k - 1]);
    }
  }

  /** On every run of careful moves, whatever is under way in between, the bucket is the server's live items
      whenever no call is under way. */
  lemma CarefulRunIsTrue(states: seq<Tier>, moves: seq<Move>, k: nat)
    requires IsTierRun(states, moves) && AllCareful(states, moves) && k < |states| && Quiet(states[k])
    ensures True(states[k])
  {
    CarefulRunIsSound(states, moves, k);
    SoundQuietIsTrue(states[k]);
  }

  // ------------------------------------------------------------------ careless adds do harm

  /** Where a server subscription stands, or will once a request is answered. */
  datatype Source = At(sub: nat) | From(call: nat)

  predicate Brings(t: Tier, source: Source) {
    match source
    case At(s) => s in t.server
    case From(c) => c in t.calls && t.calls[c].Creating? && !Stale(t, t.calls[c])
  }

  /** What is, or will be, a live item of node `n`: an item, or a place in a request under way. */
  datatype Claim = Item(sub: nat, handle: int) | Place(call: nat, i: nat)

  predicate Claims(t: Tier, claim: Claim, n: string) {
    match claim
    case Item(s, h) => s in t.server && h in t.server[s] && t.server[s][h] == n
    case Place(c, i) =>
      c in t.calls && t.calls[c].Asking? && !Stale(t, t.calls[c]) && i < |t.calls[c].nodes| && t.calls[c].nodes[i] == n
  }

  ghost predicate TwoSources(t: Tier, a: Source, b: Source) {
    a != b && Brings(t, a) && Brings(t, b)
  }

  ghost predicate TwoClaims(t: Tier, a: Claim, b: Claim, n: string) {
    a != b && Claims(t, a, n) && Claims(t, b, n)
  }

  /** Two subscriptions for the tier or two items for a node are there or to come. */
  ghost predicate Doomed(t: Tier) {
    && Formed(t) && !Ending(t)
    && ((exists a, b :: TwoSources(t, a, b)) || exists a, b, n :: TwoClaims(t, a, b, n))
  }

  lemma DoomedQuietIsFalse(t: Tier)
    requires Doomed(t) && Quiet(t)
    ensures !True(t)
  {
  }

  /** Removals that find something and losses come when no call is under way, adds when no removal is, and the server
      answers what it can. */
  ghost predicate Apart(t: Tier, move: Move) {
    match move
    case BeginAdd(_, _) => !Ending(t)
    case BeginRemove(_, raws) => Removes(t, raws) ==> Quiet(t)
    case Fail(c) => c in t.calls ==> Stale(t, t.calls[c])
    case Lose => Quiet(t)
    case _ => true
  }

  /** What a source, or a claim, becomes when a request is answered. */
  function SourceAfter(t: Tier, move: Move, a: Source): Source {
    if move.Answer? && a == From(move.call) then At(t.made) else a
  }

  function ClaimAfter(t: Tier, move: Move, a: Claim): Claim {
    if move.Answer? && a.Place? && a.call == move.call && a.call in t.calls && t.calls[a.call].Asking?
        && a.i < |move.handles| then Item(t.calls[a.call].sub, move.handles[a.i])
    else a
  }

  lemma SourceStays(t: Tier, move: Move, a: Source)
    requires Formed(t) && !Ending(t) && !Quiet(t) && Enabled(t, move) && Apart(t, move) && Brings(t, a)
    ensures Brings(Moved(t, move), SourceAfter(t, move, a))
  {
  }

  lemma ClaimStays(t: Tier, move: Move, a: Claim, n: string)
    requires Formed(t) && !Ending(t) && !Quiet(t) && Enabled(t, move) && Apart(t, move) && Claims(t, a, n)
    ensures Claims(Moved(t, move), ClaimAfter(t, move, a), n)
  {
    if move.Answer? && t.calls[move.call].Asking? {
      var s := t.calls[move.call].sub;
      var nodes, items := t.calls[move.call].nodes, t.server[s];
      if a.Item? && a.sub == s {
        CreatedElse(items, nodes, move.handles, a.handle);
      } else if a.Place? && a.call == move.call {
        CreatedHolds(items, nodes, move.handles, a.i);
      }
    }
  }

  lemma FormedStays(t: Tier, move: Move)
    requires Formed(t) && Enabled(t, move)
    ensures Formed(Moved(t, move))
  {
    var after := Moved(t, move);
    forall c | c in after.calls ensures FormedCall(after.calls[c], after.session, after.made, |after.buckets|) {
      assert c in t.calls ==> FormedCall(t.calls[c], t.session, t.made, |t.buckets|);
    }
  }

  lemma DoomedStays(t: Tier, move: Move)
    requires Doomed(t) && !Quiet(t) && Enabled(t, move) && Apart(t, move)
    ensures Doomed(Moved(t, move))
  {
    FormedStays(t, move);
    NoEndBegins(t, move);
    if a, b :| TwoSources(t, a, b) {
      SourceStays(t, move, a);
      SourceStays(t, move, b);
      assert TwoSources(Moved(t, move), SourceAfter(t, move, a), SourceAfter(t, move, b));
    } else {
      var a, b, n :| TwoClaims(t, a, b, n);
      ClaimStays(t, move, a, n);
      ClaimStays(t, move, b, n);
      assert TwoClaims(Moved(t, move), ClaimAfter(t, move, a), ClaimAfter(t, move, b), n);
    }
  }

  lemma NoEndBegins(t: Tier, move: Move)
    requires Formed(t) && !Ending(t) && !Quiet(t) && Enabled(t, move) && Apart(t, move)
    ensures !Ending(Moved(t, move))
  {
    var after := Moved(t, move);
    if move.Resume? && t.calls[move.call].Granted? {
      NotedKeys(Contents(t), t.calls[move.call].nodes, t.calls[move.call].handles);
      assert t.calls[move.call].nodes[0] in ToSet(t.calls[move.call].nodes);
      assert Contents(after) != map[];
    }
    forall c | c in after.calls ensures !Ends(after, after.calls[c]) {
      assert c in t.calls ==> FormedCall(t.calls[c], t.session, t.made, |t.buckets|) && !Ends(t, t.calls[c]);
    }
  }

  lemma SecondCreateIsDoomed(t: Tier, c: nat, raws: seq<string>)
    requires Formed(t) && Starting(t) && t.sub.None? && c !in t.calls && !Quiet(t)
    ensures exists a, b :: TwoSources(Moved(t, BeginAdd(c, raws)), a, b)
    ensures !Quiet(Moved(t, BeginAdd(c, raws)))
  {
    var after := Moved(t, BeginAdd(c, raws));
    var d :| d in t.calls && !Stale(t, t.calls[d]);
    assert after.calls[c] == Creating(raws, t.session) && after.calls[d] == t.calls[d];
    var a := if t.calls[d].Creating? then From(d) else At(t.calls[d].sub);
    assert TwoSources(after, a, From(c));
  }

  lemma RepeatedMadeIsDoomed(t: Tier, c: nat)
    requires Sound(t) && Enabled(t, Resume(c)) && t.calls[c].Made? && !Careful(t, Resume(c))
    ensures exists a, b, n :: TwoClaims(Moved(t, Resume(c)), a, b, n)
    ensures !Quiet(Moved(t, Resume(c)))
  {
    var raws, s := t.calls[c].raws, t.calls[c].sub;
    assert t.sub.None? && t.server == map[s := map[]];
    var alone := t.(sub := Some(s), calls := t.calls - {c});
    assert Contents(alone) == map[] && Quiet(alone) && Growing(alone, s);
    AskedTwice(alone, c, s, raws);
    MadeIsAsk(t, c);
  }

  /** A careless add meets or makes a second source or claim. */
  lemma CarelessIsDoomed(t: Tier, move: Move)
    requires Sound(t) && Enabled(t, move) && Apart(t, move) && !Careful(t, move)
    ensures Doomed(Moved(t, move)) && !Quiet(Moved(t, move))
  {
    FormedStays(t, move);
    if move.BeginAdd? {
      if t.sub.None? {
        SecondCreateIsDoomed(t, move.call, move.raws);
      } else {
        AskedTwice(t, move.call, t.sub.value, move.raws);
      }
    } else if move.Resume? {
      assert t.sub.None?;
      RepeatedMadeIsDoomed(t, move.call);
    } else {
      assert false;
    }
  }

  lemma AskedTwice(t: Tier, c: nat, s: nat, raws: seq<string>)
    requires Formed(t) && Growing(t, s) && c !in t.calls && !AsksAnew(t, NewIds(Contents(t), raws))
    ensures exists a, b, n :: TwoClaims(Ask(t, c, s, raws), a, b, n)
    ensures !Quiet(Ask(t, c, s, raws))
  {
    var after, nodes := Ask(t, c, s, raws), NewIds(Contents(t), raws);
    if !NoRepeats(nodes) {
      var i, j :| 0 <= i < j < |nodes| && nodes[i] == nodes[j];
      assert TwoClaims(after, Place(c, i), Place(c, j), nodes[i]);
    } else {
      var d, n :| d in t.calls && !Stale(t, t.calls[d]) && n in nodes && n in NodesOf(t.calls[d]);
      var i :| 0 <= i < |nodes| && nodes[i] == n;
      var j :| 0 <= j < |NodesOf(t.calls[d])| && NodesOf(t.calls[d])[j] == n;
      assert Holds(t.server[s], t.calls[d]);
      var b := if t.calls[d].Asking? then Place(d, j) else Item(s, t.calls[d].handles[j]);
      assert TwoClaims(after, Place(c, i), b, n);
    }
  }

  ghost predicate AllApart(states: seq<Tier>, moves: seq<Move>)
    requires |states| == |moves| + 1
  {
    forall k :: 0 <= k < |moves| ==> Apart(states[k], moves[k])
  }

  ghost predicate QuietIsTrue(states: seq<Tier>) {
    forall k :: 0 <= k < |states| && Quiet(states[k]) ==> True(states[k])
  }

  /** From a doomed state on, the first quiet state is false. */
  lemma {:induction false} DoomedEndsFalse(states: seq<Tier>, moves: seq<Move>, j: nat, k: nat)
    requires IsTierRun(states, moves) && AllApart(states, moves) && j <= k < |states|
    requires Doomed(states[j]) && QuietIsTrue(states)
    ensures Doomed(states[k]) && !Quiet(states[k])
    decreases k
  {
    if j < k {
      DoomedEndsFalse(states, moves, j, k - 1);
      DoomedStays(states[k - 1], moves[k - 1]);
    }
    if Quiet(states[k]) {
      DoomedQuietIsFalse(states[k]);
    }
  }

  lemma {:induction false} TrueRunIsCareful(states: seq<Tier>, moves: seq<Move>, k: nat)
    requires IsTierRun(states, moves) && AllApart(states, moves) && Quiet(states[|moves|]) && QuietIsTrue(states)
    requires k < |states|
    ensures Sound(states[k]) && forall j :: 0 <= j < k ==> Careful(states[j], moves[j])
  {
    if k > 0 {
      TrueRunIsCareful(states, moves, k - 1);
      if !Careful(states[k - 1], moves[k - 1]) {
        CarelessIsDoomed(states[k - 1], moves[k - 1]);
        DoomedEndsFalse(states, moves, k, |moves|);
      }
      MoveKeepsSound(states[k - 1], moves[k - 1]);
    }
  }

  /** On every run where removals and losses stand apart and the server answers, with adds overlapping in any way: the
      bucket is the server's live items whenever no call is under way exactly when no add is careless. */
  lemma OverlapTrueIff(states: seq<Tier>, moves: seq<Move>)
    requires IsTierRun(states, moves) && AllApart(states, moves) && Quiet(states[|moves|])
    ensures QuietIsTrue(states) <==> AllCareful(states, moves)
  {
    if QuietIsTrue(states) {
      TrueRunIsCareful(states, moves, |moves|);
    }
    if AllCareful(states, moves) {
      forall k | 0 <= k < |states| && Quiet(states[k]) ensures True(states[k]) {
        CarefulRunIsTrue(states, moves, k);
      }
    }
  }
}
