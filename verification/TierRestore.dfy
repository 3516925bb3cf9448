/** One publishing interval across a lost session, and calls that nothing disturbs (adapters/asyncua/upstream.py). */
module TierRestore {
  import opened Neutral
  import opened MonitoredTiers
  import opened TierCalls

  // ------------------------------------------------------------------ a loss with calls under way

  predicate Blank(t: Tier) {
    t.sub.None? && t.bucket.None? && t.server == map[]
  }

  predicate Continues(move: Move) {
    move.Answer? || move.Fail? || move.Resume?
  }

  /** An add has its answer and is about to go on. */
  predicate InHand(call: Call) {
    call.Made? || call.Granted?
  }

  ghost predicate NoneInHand(t: Tier) {
    forall c :: c in t.calls ==> !InHand(t.calls[c])
  }

  /** Only requests of before are left, besides removals that end the tier. */
  ghost predicate AllStale(t: Tier) {
    && Formed(t) && Blank(t)
    && forall c :: c in t.calls ==> Stale(t, t.calls[c]) || Ends(t, t.calls[c])
  }

  lemma StaleStays(t: Tier, move: Move)
    requires AllStale(t) && Enabled(t, move) && Continues(move)
    ensures AllStale(Moved(t, move))
  {
    FormedStays(t, move);
  }

  lemma {:induction false} StaleRunIsBlank(states: seq<Tier>, moves: seq<Move>, k: nat)
    requires |states| == |moves| + 1 && Follows(states, moves) && k < |states|
    requires AllStale(states[0]) && forall j :: 0 <= j < |moves| ==> Continues(moves[j])
    ensures AllStale(states[k])
  {
    if k > 0 {
      StaleRunIsBlank(states, moves, k - 1);
      StaleStays(states[k - 1], moves[k - 1]);
    }
  }

  /** However the calls under way go on after a loss, until a new one begins. */
  ghost predicate Afterwards(t: Tier, states: seq<Tier>, moves: seq<Move>) {
    && |states| == |moves| + 1 && states[0] == t && Follows(states, moves)
    && forall j :: 0 <= j < |moves| ==> Continues(moves[j])
  }

  /** After a loss the tier stays blank, however the calls under way go on, exactly when no add had its answer in
      hand: such a one leaves a dead subscription or files a dead handle. */
  lemma LossLeavesBlankIff(t: Tier)
    requires Formed(t)
    ensures (forall states, moves :: Afterwards(Moved(t, Lose), states, moves) ==> Blank(states[|moves|]))
       <==> NoneInHand(t)
  {
    var lost := Moved(t, Lose);
    FormedStays(t, Lose);
    if NoneInHand(t) {
      forall states, moves | Afterwards(lost, states, moves) ensures Blank(states[|moves|]) {
        assert AllStale(lost);
        StaleRunIsBlank(states, moves, |moves|);
      }
    } else {
      var c :| c in t.calls && InHand(t.calls[c]);
      assert Enabled(lost, Resume(c));
      var states, moves := [lost, Moved(lost, Resume(c))], [Resume(c)];
      assert Afterwards(lost, states, moves);
      if t.calls[c].Granted? {
        assert Moved(lost, Resume(c)).bucket.Some?;
      }
      assert !Blank(states[|moves|]);
    }
  }

  // ------------------------------------------------------------------ restoring after a reconnect

  /** Call `w` restores the nodes in a tier that was lost with requests only; the others are stale. */
  ghost predicate Restoring(t: Tier, w: nat, raws: seq<string>) {
    && Formed(t) && (forall c :: c in t.calls && c != w ==> Stale(t, t.calls[c]))
    && if w in t.calls then
         match t.calls[w]
         case Creating(asked, session) => asked == raws && session == t.session && Blank(t)
         case Made(asked, s) => asked == raws && t.sub.None? && t.bucket.None? && t.server == map[s := map[]]
         case Asking(nodes, s) => nodes == raws && t.sub == Some(s) && t.bucket.None? && t.server == map[s := map[]]
         case Granted(nodes, handles) =>
           nodes == raws && t.sub.Some? && t.bucket.None? && NoRepeats(handles)
             && t.server == map[t.sub.value := Created(map[], raws, handles)]
         case _ => false
       else exists handles :: Restored(t, raws, handles)
  }

  ghost predicate Restored(t: Tier, raws: seq<string>, handles: seq<int>) {
    && t.sub.Some? && t.bucket.Some? && t.bucket.value < |t.buckets|
    && |handles| == |raws| && NoRepeats(handles)
    && Contents(t) == Noted(map[], raws, handles) && t.server == map[t.sub.value := Created(map[], raws, handles)]
  }

  lemma RestoringStays(t: Tier, w: nat, raws: seq<string>, move: Move)
    requires raws != [] && Restoring(t, w, raws) && Enabled(t, move) && Continues(move) && move != Fail(w)
    ensures Restoring(Moved(t, move), w, raws)
  {
    FormedStays(t, move);
    var after := Moved(t, move);
    if move.call != w {
      assert after == t.(calls := t.calls - {move.call});
      assert w !in t.calls ==> forall handles :: Restored(t, raws, handles) ==> Restored(after, raws, handles);
    } else if t.calls[w].Made? {
      NewIdsOfNone(raws);
    } else if t.calls[w].Granted? {
      assert Restored(after, raws, t.calls[w].handles);
    }
  }

  ghost predicate Restores(states: seq<Tier>, moves: seq<Move>, w: nat, raws: seq<string>, j: nat) {
    && |states| == |moves| + 1 && Follows(states, moves)
    && j < |moves| && moves[j] == BeginAdd(w, raws)
    && forall i :: 0 <= i < |moves| && i != j ==> Continues(moves[i]) && moves[i] != Fail(w)
  }

  lemma {:induction false} RestoresStage(states: seq<Tier>, moves: seq<Move>, w: nat, raws: seq<string>, j: nat, k: nat)
    requires raws != [] && Restores(states, moves, w, raws, j) && k < |states|
    requires AllStale(states[0]) && Quiet(states[0])
    ensures if k <= j then AllStale(states[k]) && Quiet(states[k])
            else Restoring(states[k], w, raws)
  {
    if k > 0 {
      RestoresStage(states, moves, w, raws, j, k - 1);
      if k - 1 < j {
        StaleStays(states[k - 1], moves[k - 1]);
      } else if k - 1 == j {
        FormedStays(states[j], moves[j]);
      } else {
        RestoringStays(states[k - 1], w, raws, moves[k - 1]);
      }
    }
  }

  lemma RestoredTrueIff(t: Tier, raws: seq<string>, handles: seq<int>)
    requires raws != [] && Restored(t, raws, handles)
    ensures True(t) <==> NoRepeats(raws)
  {
    if NoRepeats(raws) {
      NotedMirrors(map[], map[], raws, handles);
      NotedAt(map[], raws, handles, 0);
    }
    if True(t) {
      var shown := AsTiers(t, 0, map[]);
      assert Mirrors(Bucket(shown, 0), shown.live[0]);
      MirroredOnce(map[], map[], raws, handles);
    }
  }

  lemma RestoreEnds(t: Tier, states: seq<Tier>, moves: seq<Move>, w: nat, raws: seq<string>, j: nat)
    returns (handles: seq<int>)
    requires Formed(t) && Careful(t, Lose) && raws != []
    requires Restores(states, moves, w, raws, j) && states[0] == Moved(t, Lose) && Quiet(states[|moves|])
    ensures Restored(states[|moves|], raws, handles)
  {
    FormedStays(t, Lose);
    assert AllStale(states[0]);
    RestoresStage(states, moves, w, raws, j, |moves|);
    var end := states[|moves|];
    assert w !in end.calls;
    handles :| Restored(end, raws, handles);
  }

  /** After a loss with no answer in hand and no removal ending the tier, and a reconnect whose restoring call gets
      through, whatever requests of before still fail: once no call is under way the tier serves exactly the nodes
      that live subscriptions want on this connection; and its bucket is the server's live items exactly when the new
      index translates no two of those nodes alike. */
  lemma ReconnectRestores(t: Tier, states: seq<Tier>, moves: seq<Move>, w: nat, j: nat,
                          subs: map<string, set<string>>, connection: string, index: map<string, string>,
                          wanted: seq<string>, pub: int)
    requires Formed(t) && Careful(t, Lose)
    requires wanted != [] && NoRepeats(wanted) && ToSet(wanted) == WantedNodes(subs, connection)
    requires Restores(states, moves, w, RawAll(index, wanted), j) && states[0] == Moved(t, Lose)
    requires Quiet(states[|moves|])
    ensures Serves(AsTiers(states[|moves|], pub, index), pub, WantedNodes(subs, connection))
    ensures True(states[|moves|]) <==> Injective(index, WantedNodes(subs, connection))
  {
    var raws, end := RawAll(index, wanted), states[|moves|];
    var handles := RestoreEnds(t, states, moves, w, raws, j);
    RestoredTrueIff(end, raws, handles);
    NotedKeys(map[], raws, handles);
    ImageOfSeq(index, wanted);
    RawsDifferIff(index, wanted);
    assert Bucket(AsTiers(end, pub, index), pub) == Contents(end);
    ServesImage(AsTiers(end, pub, index), pub, WantedNodes(subs, connection));
  }

  // ------------------------------------------------------------------ calls that nothing disturbs

  /** Where these moves lead, if each is enabled in its turn. */
  ghost function Reached(t: Tier, moves: seq<Move>): Option<Tier>
    decreases |moves|
  {
    if moves == [] then Some(t) else
      var before, move := Reached(t, moves[..|moves| - 1]), moves[|moves| - 1];
      if before.Some? && Enabled(before.value, move) then Some(Moved(before.value, move)) else None
  }

  lemma Onward(t: Tier, moves: seq<Move>, before: Tier, move: Move)
    requires Reached(t, moves) == Some(before) && Enabled(before, move)
    ensures Reached(t, moves + [move]) == Some(Moved(before, move))
  {
    assert (moves + [move])[..|moves|] == moves;
  }

  /** An add that no other move disturbs, in a tier that has its subscription, does to bucket and items what the
      undisturbed call of a binding does. */
  lemma AloneAsks(t: Tier, c: nat, s: nat, raws: seq<string>, handles: seq<int>) returns (end: Tier)
    requires Formed(t) && t.sub == Some(s) && s in t.server && c !in t.calls && NewIds(Contents(t), raws) != []
    requires |handles| == |NewIds(Contents(t), raws)| && NoRepeats(handles)
    requires forall h :: h in handles ==> h !in t.server[s]
    ensures var asked := Ask(t, c, s, raws);
      && Enabled(asked, Answer(c, handles)) && Enabled(Moved(asked, Answer(c, handles)), Resume(c))
      && end == Moved(Moved(asked, Answer(c, handles)), Resume(c))
    ensures end.calls == t.calls && end.sub == t.sub && end.bucket.Some? && Formed(end)
    ensures Contents(end) == Noted(Contents(t), NewIds(Contents(t), raws), handles)
    ensures end.server == t.server[s := Created(t.server[s], NewIds(Contents(t), raws), handles)]
  {
    var asked := Ask(t, c, s, raws);
    var granted := Moved(asked, Answer(c, handles));
    end := Moved(granted, Resume(c));
    assert Contents(granted) == Contents(t);
    assert end.calls == t.calls;
  }

  lemma ShownLive(t: Tier, end: Tier, s: nat, nodes: seq<string>, pub: int, rawByWire: map<string, string>,
                  handles: seq<int>)
    requires t.sub == Some(s) && end.sub == Some(s) && s in t.server && |handles| == |nodes|
    requires end.server == t.server[s := Created(t.server[s], nodes, handles)]
    ensures AsTiers(end, pub, rawByWire).live == AddNodes(AsTiers(t, pub, rawByWire), nodes, pub, handles).live
  {
    var was := AsTiers(t, pub, rawByWire);
    assert Items(was, pub) == t.server[s];
    assert AsTiers(end, pub, rawByWire).live == map[pub := Created(t.server[s], nodes, handles)];
    assert was.live[pub := Items(was, pub)] == map[pub := t.server[s]];
  }

  lemma ShownNodes(t: Tier, end: Tier, s: nat, nodes: seq<string>, pub: int, rawByWire: map<string, string>,
                   handles: seq<int>)
    requires Formed(t) && t.sub == Some(s) && end.sub == Some(s) && s in t.server && |handles| == |nodes|
    requires Contents(end) == Noted(Contents(t), nodes, handles) && end.bucket.Some? == (nodes != [] || t.bucket.Some?)
    requires end.server == t.server[s := Created(t.server[s], nodes, handles)]
    ensures AsTiers(end, pub, rawByWire) == AddNodes(AsTiers(t, pub, rawByWire), nodes, pub, handles)
  {
    var was, now := AsTiers(t, pub, rawByWire), AsTiers(end, pub, rawByWire);
    var after := AddNodes(was, nodes, pub, handles);
    ShownLive(t, end, s, nodes, pub, rawByWire, handles);
    assert Bucket(was, pub) == Contents(t);
    if nodes == [] {
      assert now.monitored == was.monitored;
    } else {
      assert now.monitored == map[pub := Noted(Contents(t), nodes, handles)];
      assert was.monitored[pub := Contents(end)] == map[pub := Contents(end)];
    }
    assert now.subs == after.subs;
  }

  /** `ready` is the tier with its subscription made. */
  ghost predicate MadeReady(t: Tier, ready: Tier) {
    && Formed(ready) && ready.sub.Some? && ready.sub.value in ready.server
    && ready.calls == t.calls && ready.bucket == t.bucket && ready.buckets == t.buckets
    && if t.sub.Some? then ready == t else ready.server[ready.sub.value] == map[]
  }

  lemma AloneUntilAsked(t: Tier, c: nat, raws: seq<string>, handles: seq<int>)
    returns (moves: seq<Move>, ready: Tier)
    requires Formed(t) && True(t) && c !in t.calls
    ensures moves != [] && moves[0] == BeginAdd(c, raws) && MadeReady(t, ready)
    ensures forall k :: 0 < k < |moves| ==> moves[k] == Answer(c, handles) || moves[k] == Resume(c)
    ensures Reached(t, moves) == Some(Ask(ready, c, ready.sub.value, raws))
  {
    moves, ready := [BeginAdd(c, raws)], t;
    Onward(t, [], t, BeginAdd(c, raws));
    assert [] + [BeginAdd(c, raws)] == moves;
    if t.sub.None? {
      var creating := Moved(t, BeginAdd(c, raws));
      var made := Moved(creating, Answer(c, handles));
      Onward(t, moves, creating, Answer(c, handles));
      Onward(t, moves + [Answer(c, handles)], made, Resume(c));
      moves := moves + [Answer(c, handles)] + [Resume(c)];
      MadeIsAsk(made, c);
      ready := made.(sub := Some(t.made), calls := made.calls - {c});
      assert ready.calls == t.calls;
      FormedStays(t, BeginAdd(c, raws));
      FormedStays(creating, Answer(c, handles));
    }
  }

  lemma ShownReady(t: Tier, ready: Tier, nodes: seq<string>, pub: int, rawByWire: map<string, string>,
                   handles: seq<int>)
    requires MadeReady(t, ready) && |handles| == |nodes|
    ensures AddNodes(AsTiers(ready, pub, rawByWire), nodes, pub, handles)
         == AddNodes(AsTiers(t, pub, rawByWire), nodes, pub, handles)
  {
    var was, now := AsTiers(t, pub, rawByWire), AsTiers(ready, pub, rawByWire);
    if t.sub.None? {
      assert now.subs + {pub} == was.subs + {pub};
      assert Items(now, pub) == map[] && now.live[pub := map[]] == was.live[pub := map[]];
      assert now.monitored == was.monitored;
    }
  }

  /** From the request to the last handle filed. */
  lemma AloneFromAsked(t: Tier, asking: seq<Move>, ready: Tier, c: nat, raws: seq<string>, handles: seq<int>)
    returns (moves: seq<Move>, end: Tier)
    requires Formed(ready) && ready.sub.Some? && ready.sub.value in ready.server && c !in ready.calls
    requires Reached(t, asking) == Some(Ask(ready, c, ready.sub.value, raws))
    requires |handles| == |NewIds(Contents(ready), raws)| && NoRepeats(handles)
    requires forall h :: h in handles ==> h !in ready.server[ready.sub.value]
    ensures moves == asking || moves == asking + [Answer(c, handles), Resume(c)]
    ensures Reached(t, moves) == Some(end) && end.calls == ready.calls && end.sub == ready.sub
    ensures var nodes, s := NewIds(Contents(ready), raws), ready.sub.value;
      && Contents(end) == Noted(Contents(ready), nodes, handles)
      && end.bucket.Some? == (nodes != [] || ready.bucket.Some?)
      && end.server == ready.server[s := Created(ready.server[s], nodes, handles)]
  {
    var s := ready.sub.value;
    var asked := Ask(ready, c, s, raws);
    moves, end := asking, asked;
    if NewIds(Contents(ready), raws) != [] {
      end := AloneAsks(ready, c, s, raws, handles);
      Onward(t, asking, asked, Answer(c, handles));
      Onward(t, asking + [Answer(c, handles)], Moved(asked, Answer(c, handles)), Resume(c));
      moves := asking + [Answer(c, handles), Resume(c)];
      assert moves == asking + [Answer(c, handles)] + [Resume(c)];
    }
  }

  /** An undisturbed add, from no call to no call, is the add of a binding. */
  lemma AloneIsAdd(t: Tier, c: nat, ids: seq<string>, pub: int, rawByWire: map<string, string>, handles: seq<int>)
    returns (moves: seq<Move>, end: Tier)
    requires Formed(t) && True(t) && c !in t.calls && NewHandles(AsTiers(t, pub, rawByWire), ids, pub, handles)
    ensures moves != [] && moves[0] == BeginAdd(c, RawAll(rawByWire, ids))
    ensures forall k :: 0 < k < |moves| ==> moves[k] == Answer(c, handles) || moves[k] == Resume(c)
    ensures Reached(t, moves) == Some(end) && end.calls == t.calls
    ensures AsTiers(end, pub, rawByWire) == Add(AsTiers(t, pub, rawByWire), ids, pub, handles)
  {
    var raws := RawAll(rawByWire, ids);
    var asking, ready := AloneUntilAsked(t, c, raws, handles);
    assert Contents(ready) == Contents(t) == Bucket(AsTiers(t, pub, rawByWire), pub);
    moves, end := AloneFromAsked(t, asking, ready, c, raws, handles);
    ShownNodes(ready, end, ready.sub.value, NewIds(Contents(t), raws), pub, rawByWire, handles);
    ShownReady(t, ready, NewIds(Contents(t), raws), pub, rawByWire, handles);
  }

  lemma NothingToRemove(t: Tier, ids: seq<string>, pub: int, rawByWire: map<string, string>)
    requires Formed(t) && True(t) && !Removes(t, RawAll(rawByWire, ids))
    ensures Remove(AsTiers(t, pub, rawByWire), ids, pub) == AsTiers(t, pub, rawByWire)
  {
    var was, gone := AsTiers(t, pub, rawByWire), ToSet(RawAll(rawByWire, ids));
    if t.sub.Some? && Contents(t) != map[] {
      assert Bucket(was, pub) == Contents(t) == Contents(t) - gone;
      assert Handles(Contents(t), gone) == {};
      var after := Remove(was, ids, pub);
      assert Items(was, pub) - {} == Items(was, pub);
      assert after.monitored == was.monitored && after.live == was.live;
    }
  }

  lemma ShownRemove(t: Tier, end: Tier, s: nat, ids: seq<string>, pub: int, rawByWire: map<string, string>)
    requires Formed(t) && t.sub == Some(s) && s in t.server && Contents(t) != map[]
    requires var gone := ToSet(RawAll(rawByWire, ids));
      var rest := Contents(t) - gone;
      && (rest == map[] ==> end.sub.None? && end.bucket.None?)
      && (rest != map[] ==>
           && end.sub == Some(s) && end.bucket.Some? && Contents(end) == rest
           && end.server == t.server[s := t.server[s] - Handles(Contents(t), gone)])
    ensures AsTiers(end, pub, rawByWire) == Remove(AsTiers(t, pub, rawByWire), ids, pub)
  {
    var was, now, gone := AsTiers(t, pub, rawByWire), AsTiers(end, pub, rawByWire), ToSet(RawAll(rawByWire, ids));
    var after := Remove(was, ids, pub);
    assert Bucket(was, pub) == Contents(t) && Items(was, pub) == t.server[s];
    assert now.subs == after.subs && now.monitored == after.monitored && now.live == after.live;
  }

  /** An undisturbed removal is the removal of a binding. */
  lemma AloneIsRemove(t: Tier, c: nat, ids: seq<string>, pub: int, rawByWire: map<string, string>)
    returns (moves: seq<Move>, end: Tier)
    requires Formed(t) && True(t) && c !in t.calls
    ensures moves != [] && moves[0] == BeginRemove(c, RawAll(rawByWire, ids))
    ensures forall k :: 0 < k < |moves| ==> moves[k] == Resume(c)
    ensures Reached(t, moves) == Some(end) && end.calls == t.calls
    ensures AsTiers(end, pub, rawByWire) == Remove(AsTiers(t, pub, rawByWire), ids, pub)
  {
    var raws := RawAll(rawByWire, ids);
    moves, end := [BeginRemove(c, raws)], Moved(t, BeginRemove(c, raws));
    Onward(t, [], t, BeginRemove(c, raws));
    assert [] + [BeginRemove(c, raws)] == moves;
    if !Removes(t, raws) {
      NothingToRemove(t, ids, pub, rawByWire);
    } else {
      var dropping := end;
      assert Contents(dropping) == Contents(t) - ToSet(raws);
      Onward(t, moves, dropping, Resume(c));
      moves, end := moves + [Resume(c)], Moved(dropping, Resume(c));
      if Contents(dropping) == map[] {
        var deleting := end;
        Onward(t, moves, deleting, Resume(c));
        moves, end := moves + [Resume(c)], Moved(deleting, Resume(c));
      }
      assert end.calls == t.calls;
      ShownRemove(t, end, t.sub.value, ids, pub, rawByWire);
    }
  }

  // ------------------------------------------------------------------ a whole binding

  /** A move within one interval, or the loss of the session for all. */
  datatype BindingMove = Within(pub: int, move: Move) | LoseAll

  function TierAt(tiers: map<int, Tier>, pub: int): Tier {
    if pub in tiers then tiers[pub] else IDLE
  }

  ghost predicate CarefulMove(tiers: map<int, Tier>, m: BindingMove) {
    match m
    case Within(pub, move) => Careful(TierAt(tiers, pub), move)
    case LoseAll => forall pub :: pub in tiers ==> Careful(tiers[pub], Lose)
  }

  ghost predicate EnabledMove(tiers: map<int, Tier>, m: BindingMove) {
    m.Within? ==> m.move != Lose && Enabled(TierAt(tiers, m.pub), m.move)
  }

  ghost function MovedAll(tiers: map<int, Tier>, m: BindingMove): map<int, Tier>
    requires EnabledMove(tiers, m)
  {
    match m
    case Within(pub, move) => tiers[pub := Moved(TierAt(tiers, pub), move)]
    case LoseAll => map pub | pub in tiers :: Moved(tiers[pub], Lose)
  }

  /** The intervals share nothing but the session: in every careful run of a whole binding every interval is sound, so
      its bucket is the server's live items whenever it has no call under way. */
  lemma {:induction false} BindingRunIsTrue(states: seq<map<int, Tier>>, moves: seq<BindingMove>, k: nat)
    requires |states| == |moves| + 1 && states[0] == map[] && k < |states|
    requires forall j :: 0 <= j < |moves| ==>
               EnabledMove(states[j], moves[j]) && states[j + 1] == MovedAll(states[j], moves[j])
    requires forall j :: 0 <= j < |moves| ==> CarefulMove(states[j], moves[j])
    ensures forall pub :: pub in states[k] ==>
              Sound(states[k][pub]) && (Quiet(states[k][pub]) ==> True(states[k][pub]))
  {
    if k > 0 {
      BindingRunIsTrue(states, moves, k - 1);
      var was := states[k - 1];
      assert Sound(IDLE);
      forall pub | pub in states[k] ensures Sound(states[k][pub]) {
        match moves[k - 1]
        case Within(p, move) =>
          if p == pub {
            MoveKeepsSound(TierAt(was, p), move);
          }
        case LoseAll => LoseKeepsSound(was[pub]);
      }
    }
    forall pub | pub in states[k] && Quiet(states[k][pub]) ensures True(states[k][pub]) {
      SoundQuietIsTrue(states[k][pub]);
    }
  }
}
