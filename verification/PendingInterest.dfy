/** The subscription routes at their await points: between the manager's step and the session's call of a request,
    others go on (api/routes/subscriptions.py). One connection is looked at. */
module PendingInterest {
  import opened Neutral
  import opened ElementIds
  import opened Interest
  import Subscriptions

  datatype Call = Adding(nodes: seq<string>) | Removing(nodes: seq<string>)

  /** The world, and the session calls that requests are still to make. */
  datatype State = State(world: World, calls: seq<Call>)

  /** A request reaches the manager, or one of the waiting calls the session; the handles of a registration
      are those granted to its call. */
  datatype Event = Request(act: Act) | Reach(k: nat, handles: seq<int>)

  function Managed(subs: map<string, set<string>>, act: Act): map<string, set<string>> {
    if act.Open? then subs[act.id := {}]
    else if act.id !in subs then subs
    else match act
      case Register(id, eids, _) => subs[id := subs[id] + ToSet(Canonical(eids))]
      case Unregister(id, eids) => subs[id := subs[id] - ToSet(Canonical(eids))]
      case Close(id, _) => subs - {id}
  }

  /** The call that a request owes the session. */
  function CallOf(w: World, connection: string, act: Act): Call {
    if act.id !in w.subs then Adding([])
    else match act
      case Open(_) => Adding([])
      case Register(_, _, _) => Adding(Newly(w, connection, act))
      case Unregister(_, _) => Removing(Gone(w, connection, act))
      case Close(_, order) => Removing(NodesFor(connection, order))
  }

  predicate CanReach(p: State, event: Event) {
    event.Reach? ==>
      && event.k < |p.calls|
      && (p.calls[event.k].Adding? ==> |event.handles| == |FirstTime(p.world.session, p.calls[event.k].nodes)|)
  }

  function Served(s: Session, call: Call, handles: seq<int>): Session
    requires call.Adding? ==> |handles| == |FirstTime(s, call.nodes)|
  {
    match call
    case Adding(nodes) => Add(s, nodes, handles)
    case Removing(nodes) => Remove(s, nodes)
  }

  /** No call is made for a request that owes this connection nothing. */
  function After(p: State, connection: string, event: Event): State
    requires CanReach(p, event)
  {
    match event
    case Request(act) =>
      var call := CallOf(p.world, connection, act);
      State(p.world.(subs := Managed(p.world.subs, act)), if call.nodes == [] then p.calls else p.calls + [call])
    case Reach(k, handles) =>
      State(p.world.(session := Served(p.world.session, p.calls[k], handles)), p.calls[..k] + p.calls[k + 1..])
  }

  /** A request whose call is made at once is one undisturbed act. */
  lemma AloneIsNext(p: State, connection: string, act: Act)
    requires act.Register? && act.id in p.world.subs ==>
      |act.handles| == |FirstTime(p.world.session, Newly(p.world, connection, act))|
    ensures var asked := After(p, connection, Request(act));
      var world := Next(p.world, connection, act);
      if asked.calls == p.calls then asked.world == world
      else
        var reach := Reach(|p.calls|, if act.Register? then act.handles else []);
        CanReach(asked, reach) && After(asked, connection, reach) == State(world, p.calls)
  {
    var asked, call := After(p, connection, Request(act)), CallOf(p.world, connection, act);
    if call.nodes != [] {
      assert asked.calls[..|p.calls|] == p.calls && asked.calls[|p.calls|] == call && |asked.calls| == |p.calls| + 1;
      assert asked.calls != p.calls;
    }
  }

  // ------------------------------------------------------------------ what is owed

  function Due(call: Call, node: string): int {
    if call.Adding? then Times(call.nodes, node) else 0 - Times(call.nodes, node)
  }

  function Owed(calls: seq<Call>, node: string): int {
    if calls == [] then 0 else Due(calls[0], node) + Owed(calls[1..], node)
  }

  lemma {:induction false} OwedSplit(calls: seq<Call>, more: seq<Call>, node: string)
    ensures Owed(calls + more, node) == Owed(calls, node) + Owed(more, node)
  {
    if calls == [] {
      assert calls + more == more;
    } else {
      assert (calls + more)[1..] == calls[1..] + more;
      OwedSplit(calls[1..], more, node);
    }
  }

  lemma OwedWithout(calls: seq<Call>, k: nat, node: string)
    requires k < |calls|
    ensures Owed(calls[..k] + calls[k + 1..], node) == Owed(calls, node) - Due(calls[k], node)
  {
    assert calls == calls[..k] + ([calls[k]] + calls[k + 1..]);
    OwedSplit(calls[..k], [calls[k]] + calls[k + 1..], node);
    OwedSplit(calls[..k], calls[k + 1..], node);
    assert ([calls[k]] + calls[k + 1..])[1..] == calls[k + 1..];
  }

  /** By how much the interest counted and owed exceeds the live subscriptions that hold the node. */
  ghost function Surplus(p: State, connection: string, node: string): int {
    CountOf(p.world.session, node) + Owed(p.calls, node)
        - |Holders(p.world.subs, ElementRef(connection, node).AsId())|
  }

  /** A removal finds no interest in one of its nodes: it has overtaken the call that adds it. */
  ghost predicate Overtakes(p: State, event: Event) {
    && event.Reach? && event.k < |p.calls| && p.calls[event.k].Removing?
    && exists n :: n in p.calls[event.k].nodes && CountOf(p.world.session, n) == 0
  }

  // ------------------------------------------------------------------ legal runs

  /** New ids settle when canonicalized, nothing is added or removed twice in one request, a new subscription has a
      new id, a closed one lists what it held, and the backend's handles are new. */
  ghost predicate Legal(p: State, connection: string, event: Event) {
    match event
    case Request(act) =>
      if act.Open? then act.id !in p.world.subs
      else act.id in p.world.subs ==>
        if act.Register? then
          OnceEach(Newly(p.world, connection, act)) && SettledHere(connection, AddedIds(p.world, act))
        else if act.Unregister? then OnceEach(Gone(p.world, connection, act))
        else NoRepeats(act.order) && ToSet(act.order) == p.world.subs[act.id]
    case Reach(k, handles) =>
      && k < |p.calls|
      && (p.calls[k].Adding? ==> Grants(p.world.session, p.calls[k].nodes, handles))
  }

  ghost predicate Tidy(p: State, connection: string) {
    && Matched(p.world.session)
    && (forall k :: 0 <= k < |p.calls| ==> OnceEach(p.calls[k].nodes))
    && (forall id, e :: id in p.world.subs && e in p.world.subs[id] && Ours(connection, e) ==> Settled(e))
  }

  /** A request owes a node as much as it changes the number of its holders. */
  lemma RequestDue(p: State, connection: string, act: Act, n: string)
    requires '!' !in connection && Tidy(p, connection) && Legal(p, connection, Request(act))
    ensures var e := ElementRef(connection, n).AsId();
      |Holders(Managed(p.world.subs, act), e)|
        == |Holders(p.world.subs, e)| + Due(CallOf(p.world, connection, act), n)
    ensures OnceEach(CallOf(p.world, connection, act).nodes)
  {
    var w, e := p.world, ElementRef(connection, n).AsId();
    if act.Open? {
      assert Holders(w.subs[act.id := {}], e) == Holders(w.subs, e);
    } else if act.id in w.subs {
      match act {
        case Register(_, _, _) => RegisterDue(w, connection, act, n);
        case Unregister(_, _) => UnregisterDue(w, connection, act, n);
        case Close(id, order) => CloseDue(w, connection, id, order, n);
      }
    }
  }

  lemma RegisterDue(w: World, connection: string, act: Act, n: string)
    requires '!' !in connection && act.Register? && act.id in w.subs
    requires OnceEach(Newly(w, connection, act)) && SettledHere(connection, AddedIds(w, act))
    ensures var e := ElementRef(connection, n).AsId();
      |Holders(Managed(w.subs, act), e)| == |Holders(w.subs, e)| + Times(Newly(w, connection, act), n)
  {
    var ids, e := Canonical(act.elementIds), ElementRef(connection, n).AsId();
    NodeTimes(connection, AddedIds(w, act), n);
    MissingTimes(w.subs[act.id], ids, e);
    TimesPositive(ids, e);
    HoldersAdd(w.subs, act.id, ToSet(ids), e);
  }

  lemma UnregisterDue(w: World, connection: string, act: Act, n: string)
    requires '!' !in connection && act.Unregister? && act.id in w.subs && OnceEach(Gone(w, connection, act))
    requires forall e :: e in w.subs[act.id] && Ours(connection, e) ==> Settled(e)
    ensures var e := ElementRef(connection, n).AsId();
      |Holders(Managed(w.subs, act), e)| == |Holders(w.subs, e)| - Times(Gone(w, connection, act), n)
  {
    var ids, e := Canonical(act.elementIds), ElementRef(connection, n).AsId();
    PresentTimes(w.subs[act.id], ids, e);
    NodeTimes(connection, RemovedIds(w, act), n);
    TimesPositive(ids, e);
    HoldersDrop(w.subs, Managed(w.subs, act), act.id, e);
  }

  lemma CloseDue(w: World, connection: string, id: string, order: seq<string>, n: string)
    requires '!' !in connection && id in w.subs && NoRepeats(order) && ToSet(order) == w.subs[id]
    requires forall e :: e in w.subs[id] && Ours(connection, e) ==> Settled(e)
    ensures var e := ElementRef(connection, n).AsId();
      |Holders(w.subs - {id}, e)| == |Holders(w.subs, e)| - Times(NodesFor(connection, order), n)
    ensures OnceEach(NodesFor(connection, order))
  {
    forall i | 0 <= i < |order| ensures order[i] in w.subs[id] {
      assert order[i] in ToSet(order);
    }
    forall m ensures Times(NodesFor(connection, order), m)
                  == if ElementRef(connection, m).AsId() in order then 1 else 0 {
      NodeTimes(connection, order, m);
      NoRepeatsTimes(order, ElementRef(connection, m).AsId());
    }
    var e := ElementRef(connection, n).AsId();
    assert e in order <==> e in ToSet(order);
    HoldersDrop(w.subs, w.subs - {id}, id, e);
  }

  /** Each event keeps the surplus of a node, except that a removal overtaking its addition leaves one too many. */
  lemma SurplusStep(p: State, connection: string, event: Event, n: string)
    requires '!' !in connection && Tidy(p, connection) && Legal(p, connection, event)
    ensures var late := event.Reach? && p.calls[event.k].Removing? && n in p.calls[event.k].nodes
        && CountOf(p.world.session, n) == 0;
      Surplus(After(p, connection, event), connection, n) == Surplus(p, connection, n) + (if late then 1 else 0)
  {
    match event
    case Request(act) =>
      RequestDue(p, connection, act, n);
      OwedSplit(p.calls, [CallOf(p.world, connection, act)], n);
    case Reach(k, handles) =>
      OwedWithout(p.calls, k, n);
      var nodes := p.calls[k].nodes;
      TimesPositive(nodes, n);
      assert Times(nodes, n) <= 1;
      if p.calls[k].Adding? {
        AddCounts(p.world.session, nodes, handles, n);
      } else {
        RemoveCounts(p.world.session, nodes, n);
      }
  }

  lemma AfterIsTidy(p: State, connection: string, event: Event)
    requires '!' !in connection && Tidy(p, connection) && Legal(p, connection, event)
    ensures Tidy(After(p, connection, event), connection)
  {
    match event
    case Request(act) =>
      RequestDue(p, connection, act, "");
      if act.Register? && act.id in p.world.subs {
        AddedSettled(p.world, connection, act);
      }
    case Reach(k, handles) =>
      if p.calls[k].Adding? {
        AddKeepsMatched(p.world.session, p.calls[k].nodes, handles);
      } else {
        RemoveKeepsMatched(p.world.session, p.calls[k].nodes);
      }
  }

  /** The states of a run, from the start on, with requests overlapping in any way. */
  ghost predicate IsRun(states: seq<State>, events: seq<Event>, connection: string) {
    && |states| == |events| + 1 && states[0] == State(START, [])
    && forall k :: 0 <= k < |events| ==>
         Legal(states[k], connection, events[k]) && states[k + 1] == After(states[k], connection, events[k])
  }

  /** However requests overlap, monitored are the nodes with interest and the handles are the live items. */
  lemma {:induction false} RunIsTidy(states: seq<State>, events: seq<Event>, connection: string, k: nat)
    requires '!' !in connection && IsRun(states, events, connection) && k < |states|
    ensures Tidy(states[k], connection)
  {
    if k > 0 {
      RunIsTidy(states, events, connection, k - 1);
      AfterIsTidy(states[k - 1], connection, events[k - 1]);
    }
  }

  ghost predicate Balanced(p: State, connection: string) {
    forall n :: Surplus(p, connection, n) == 0
  }

  lemma {:induction false} SurplusGrows(states: seq<State>, events: seq<Event>, connection: string, j: nat, k: nat,
                                        n: string)
    requires '!' !in connection && IsRun(states, events, connection) && j <= k < |states|
    ensures 0 <= Surplus(states[j], connection, n) <= Surplus(states[k], connection, n)
    decreases k
  {
    if k == 0 {
      assert Holders(START.subs, ElementRef(connection, n).AsId()) == {};
    } else {
      RunIsTidy(states, events, connection, k - 1);
      SurplusStep(states[k - 1], connection, events[k - 1], n);
      SurplusGrows(states, events, connection, if j < k then j else k - 1, k - 1, n);
    }
  }

  lemma BalancedBefore(states: seq<State>, events: seq<Event>, connection: string, k: nat)
    requires '!' !in connection && IsRun(states, events, connection) && k < |events|
    requires Balanced(states[k + 1], connection)
    ensures Balanced(states[k], connection)
  {
    forall n ensures Surplus(states[k], connection, n) == 0 {
      SurplusGrows(states, events, connection, k, k + 1, n);
    }
  }

  lemma {:induction false} BalancedIff(states: seq<State>, events: seq<Event>, connection: string, k: nat)
    requires '!' !in connection && IsRun(states, events, connection) && k < |states|
    ensures Balanced(states[k], connection) <==> forall j :: 0 <= j < k ==> !Overtakes(states[j], events[j])
  {
    if k == 0 {
      forall n ensures Surplus(states[0], connection, n) == 0 {
        assert Holders(START.subs, ElementRef(connection, n).AsId()) == {};
      }
    } else {
      BalancedIff(states, events, connection, k - 1);
      NextBalancedIff(states, events, connection, k - 1);
    }
  }

  lemma NextBalancedIff(states: seq<State>, events: seq<Event>, connection: string, k: nat)
    requires '!' !in connection && IsRun(states, events, connection) && k < |events|
    ensures Balanced(states[k + 1], connection) <==> Balanced(states[k], connection) && !Overtakes(states[k], events[k])
  {
    RunIsTidy(states, events, connection, k);
    if Balanced(states[k], connection) {
      BalancedStep(states[k], connection, events[k]);
    } else if Balanced(states[k + 1], connection) {
      BalancedBefore(states, events, connection, k);
    }
  }

  lemma BalancedStep(p: State, connection: string, event: Event)
    requires '!' !in connection && Tidy(p, connection) && Legal(p, connection, event) && Balanced(p, connection)
    ensures Balanced(After(p, connection, event), connection) <==> !Overtakes(p, event)
  {
    if Overtakes(p, event) {
      var n :| n in p.calls[event.k].nodes && CountOf(p.world.session, n) == 0;
      SurplusStep(p, connection, event, n);
    } else {
      forall n ensures Surplus(After(p, connection, event), connection, n) == 0 {
        SurplusStep(p, connection, event, n);
      }
    }
  }

  /** On every run, however its requests overlap, once no call is waiting each count is the number of live
      subscriptions that hold the node exactly when no removal has overtaken the addition of its node. */
  lemma OverlapAgreesIff(states: seq<State>, events: seq<Event>, connection: string)
    requires '!' !in connection && IsRun(states, events, connection) && states[|events|].calls == []
    ensures CountsAgree(states[|events|].world, connection)
       <==> forall j :: 0 <= j < |events| ==> !Overtakes(states[j], events[j])
  {
    var end := states[|events|];
    BalancedIff(states, events, connection, |events|);
    forall n ensures AgreesAt(end.world, connection, n) <==> Surplus(end, connection, n) == 0 {
    }
    if CountsAgree(end.world, connection) {
      forall n ensures Surplus(end, connection, n) == 0 {
        assert AgreesAt(end.world, connection, n);
      }
    }
  }

  // ------------------------------------------------------------------ calls in order

  /** Serving the waiting calls from the front finds enough interest for each removal. */
  ghost predicate Covered(p: State, n: string) {
    forall i :: 0 <= i <= |p.calls| ==> CountOf(p.world.session, n) + Owed(p.calls[..i], n) >= 0
  }

  lemma OwedStepAt(calls: seq<Call>, i: nat, n: string)
    requires i < |calls|
    ensures Owed(calls[..i + 1], n) == Due(calls[0], n) + Owed(calls[1..][..i], n)
  {
    assert calls[..i + 1][1..] == calls[1..][..i];
  }

  lemma RequestCovered(p: State, connection: string, act: Act, n: string)
    requires '!' !in connection && Tidy(p, connection) && Legal(p, connection, Request(act))
    requires Surplus(p, connection, n) == 0 && Covered(p, n)
    ensures Covered(After(p, connection, Request(act)), n)
  {
    var after := After(p, connection, Request(act));
    SurplusStep(p, connection, Request(act), n);
    assert after.calls[..|after.calls|] == after.calls;
    forall i | 0 <= i <= |after.calls| ensures CountOf(after.world.session, n) + Owed(after.calls[..i], n) >= 0 {
      if i <= |p.calls| {
        assert after.calls[..i] == p.calls[..i];
      }
    }
  }

  /** Serving the front call changes the count by what it was due. */
  lemma FrontServed(p: State, connection: string, handles: seq<int>, n: string)
    requires Tidy(p, connection) && Legal(p, connection, Reach(0, handles)) && Covered(p, n)
    ensures p.calls[0].Removing? && n in p.calls[0].nodes ==> CountOf(p.world.session, n) > 0
    ensures CountOf(Served(p.world.session, p.calls[0], handles), n)
         == CountOf(p.world.session, n) + Due(p.calls[0], n)
  {
    var nodes := p.calls[0].nodes;
    TimesPositive(nodes, n);
    assert Times(nodes, n) <= 1;
    OwedStepAt(p.calls, 0, n);
    assert CountOf(p.world.session, n) + Owed(p.calls[..1], n) >= 0;
    if p.calls[0].Adding? {
      AddCounts(p.world.session, nodes, handles, n);
    } else {
      RemoveCounts(p.world.session, nodes, n);
    }
  }

  lemma FrontCovered(p: State, connection: string, handles: seq<int>, n: string)
    requires Tidy(p, connection) && Legal(p, connection, Reach(0, handles)) && Covered(p, n)
    ensures Covered(After(p, connection, Reach(0, handles)), n)
  {
    var after := After(p, connection, Reach(0, handles));
    assert p.calls[..0] + p.calls[1..] == p.calls[1..];
    FrontServed(p, connection, handles, n);
    forall i | 0 <= i <= |after.calls| ensures CountOf(after.world.session, n) + Owed(after.calls[..i], n) >= 0 {
      OwedStepAt(p.calls, i, n);
      assert CountOf(p.world.session, n) + Owed(p.calls[..i + 1], n) >= 0;
    }
  }

  lemma CoveredStep(p: State, connection: string, event: Event, n: string)
    requires '!' !in connection && Tidy(p, connection) && Legal(p, connection, event)
    requires Surplus(p, connection, n) == 0 && Covered(p, n) && (event.Reach? ==> event.k == 0)
    ensures Covered(After(p, connection, event), n)
    ensures event.Reach? && p.calls[0].Removing? && n in p.calls[0].nodes ==> CountOf(p.world.session, n) > 0
  {
    match event
    case Request(act) => RequestCovered(p, connection, act, n);
    case Reach(k, handles) =>
      FrontServed(p, connection, handles, n);
      FrontCovered(p, connection, handles, n);
  }

  lemma {:induction false} InOrderCovered(states: seq<State>, events: seq<Event>, connection: string, k: nat)
    requires '!' !in connection && IsRun(states, events, connection) && k < |states|
    requires forall j :: 0 <= j < |events| && events[j].Reach? ==> events[j].k == 0
    ensures forall n :: Surplus(states[k], connection, n) == 0 && Covered(states[k], n)
    ensures forall j :: 0 <= j < k ==> !Overtakes(states[j], events[j])
  {
    if k == 0 {
      forall n ensures Surplus(states[0], connection, n) == 0 {
        assert Holders(START.subs, ElementRef(connection, n).AsId()) == {};
      }
    } else {
      InOrderCovered(states, events, connection, k - 1);
      RunIsTidy(states, events, connection, k - 1);
      forall n ensures Surplus(states[k], connection, n) == 0 && Covered(states[k], n) {
        SurplusStep(states[k - 1], connection, events[k - 1], n);
        CoveredStep(states[k - 1], connection, events[k - 1], n);
      }
      if Overtakes(states[k - 1], events[k - 1]) {
        var n :| n in states[k - 1].calls[0].nodes && CountOf(states[k - 1].world.session, n) == 0;
        CoveredStep(states[k - 1], connection, events[k - 1], n);
        assert false;
      }
    }
  }

  /** Calls that reach the session in the order of their requests never overtake, so the counts agree. */
  lemma InOrderAgrees(states: seq<State>, events: seq<Event>, connection: string)
    requires '!' !in connection && IsRun(states, events, connection) && states[|events|].calls == []
    requires forall j :: 0 <= j < |events| && events[j].Reach? ==> events[j].k == 0
    ensures CountsAgree(states[|events|].world, connection)
  {
    InOrderCovered(states, events, connection, |events|);
    OverlapAgreesIff(states, events, connection);
  }

  // ------------------------------------------------------------------ a removal that overtakes

  /** Ids of two connections are registered, and the second one is unregistered, seen from connection B: its removal
      arrives while the first request is still waiting for connection A. */
  const ASK := Register("s", ["A!x", "B!y"], [])
  const DROP := Unregister("s", ["B!y"])

  const OPENED := State(World(map["s" := {}], Session(map[], map[], map[])), [])
  const ASKED := State(World(map["s" := {"A!x", "B!y"}], Session(map[], map[], map[])), [Adding(["y"])])
  const DROPPED := State(World(map["s" := {"A!x"}], Session(map[], map[], map[])), [Adding(["y"]), Removing(["y"])])
  const OVERTAKEN := State(World(map["s" := {"A!x"}], Session(map[], map[], map[])), [Adding(["y"])])
  const LEFT := State(World(map["s" := {"A!x"}], Session(map["y" := 1], map["y" := 7], map[7 := "y"])), [])

  lemma ParseTwo()
    ensures Parse("A!x") == Some(ElementRef("A", "x")) && Parse("B!y") == Some(ElementRef("B", "y"))
    ensures Canonical(["A!x", "B!y"]) == ["A!x", "B!y"] && Canonical(["B!y"]) == ["B!y"]
  {
    assert "A!x" == ElementRef("A", "x").AsId() && "B!y" == ElementRef("B", "y").AsId();
    AsIdParsesIff(ElementRef("A", "x"));
    AsIdParsesIff(ElementRef("B", "y"));
  }

  lemma NodesTwo()
    ensures NodesFor("B", ["A!x", "B!y"]) == ["y"] && NodesFor("B", ["B!y"]) == ["y"]
    ensures Subscriptions.Missing({}, ["A!x", "B!y"]) == ["A!x", "B!y"]
    ensures Subscriptions.Present({"A!x", "B!y"}, ["B!y"]) == ["B!y"]
  {
    ParseTwo();
    assert ["A!x", "B!y"][1..] == ["B!y"] && ["B!y"][1..] == [];
    assert NodesFor("B", ["B!y"]) == ["y"] + NodesFor("B", []);
    assert Subscriptions.Missing({}, ["B!y"]) == ["B!y"] + Subscriptions.Missing({}, []);
    assert Subscriptions.Present({"A!x", "B!y"}, ["B!y"]) == ["B!y"] + Subscriptions.Present({"A!x", "B!y"}, []);
  }

  lemma AskStep()
    ensures Legal(OPENED, "B", Request(ASK)) && ASKED == After(OPENED, "B", Request(ASK))
  {
    ParseTwo();
    NodesTwo();
    forall n ensures Times(["y"], n) <= 1 {
      assert ["y"][1..] == [];
    }
    assert ToSet(["A!x", "B!y"]) == {} + {"A!x", "B!y"} == {"A!x", "B!y"};
    assert Managed(OPENED.world.subs, ASK) == ASKED.world.subs;
  }

  lemma DropStep()
    ensures Legal(ASKED, "B", Request(DROP)) && DROPPED == After(ASKED, "B", Request(DROP))
  {
    ParseTwo();
    NodesTwo();
    forall n ensures Times(["y"], n) <= 1 {
      assert ["y"][1..] == [];
    }
    assert "A!x"[0] != "B!y"[0] && ToSet(["B!y"]) == {"B!y"};
    assert {"A!x", "B!y"} - {"B!y"} == {"A!x"};
    assert Managed(ASKED.world.subs, DROP) == DROPPED.world.subs;
  }

  lemma CallsStep()
    ensures Legal(DROPPED, "B", Reach(1, [])) && OVERTAKEN == After(DROPPED, "B", Reach(1, []))
    ensures Legal(OVERTAKEN, "B", Reach(0, [7])) && LEFT == After(OVERTAKEN, "B", Reach(0, [7]))
    ensures Overtakes(DROPPED, Reach(1, []))
  {
    assert ["y"][1..] == [] && ["y"][..0] == [] && [7][..0] == [];
    var empty := Session(map[], map[], map[]);
    assert FirstTime(empty, ["y"]) == ["y"] + FirstTime(empty, []) == ["y"];
    assert Remove(empty, ["y"]) == empty;
    assert Monitor(empty, ["y"], [7]) == Session(map[], map["y" := 7], map[7 := "y"]);
    assert "y" in DROPPED.calls[1].nodes;
  }

  lemma NobodyHolds()
    ensures CountOf(LEFT.world.session, "y") == 1 && Holders(LEFT.world.subs, "B!y") == {}
    ensures !CountsAgree(LEFT.world, "B")
  {
    assert "A!x"[0] != "B!y"[0] && ElementRef("B", "y").AsId() == "B!y";
    assert !AgreesAt(LEFT.world, "B", "y");
  }

  lemma OneMore(states: seq<State>, events: seq<Event>, connection: string, event: Event)
    requires IsRun(states, events, connection) && Legal(states[|events|], connection, event)
    ensures IsRun(states + [After(states[|events|], connection, event)], events + [event], connection)
  {
  }

  /** The removal finds nothing, and the addition then counts interest that nobody has: item 7 stays alive. */
  lemma OvertakenStaysCounted() returns (states: seq<State>, events: seq<Event>)
    ensures IsRun(states, events, "B") && |events| == 5
    ensures events[1] == Request(ASK) && events[2] == Request(DROP) && Overtakes(states[3], events[3])
    ensures states[5] == LEFT && LEFT.calls == []
    ensures CountOf(LEFT.world.session, "y") == 1 && Holders(LEFT.world.subs, "B!y") == {}
    ensures !CountsAgree(LEFT.world, "B")
  {
    states, events := RunToDropped();
    CallsStep();
    OneMore(states, events, "B", Reach(1, []));
    states, events := states + [OVERTAKEN], events + [Reach(1, [])];
    OneMore(states, events, "B", Reach(0, [7]));
    states, events := states + [LEFT], events + [Reach(0, [7])];
    NobodyHolds();
  }

  lemma RunToDropped() returns (states: seq<State>, events: seq<Event>)
    ensures IsRun(states, events, "B") && |events| == 3 && states[3] == DROPPED
    ensures events[1] == Request(ASK) && events[2] == Request(DROP)
  {
    states, events := [State(START, [])], [];
    OneMore(states, events, "B", Request(Open("s")));
    states, events := states + [OPENED], events + [Request(Open("s"))];
    AskStep();
    OneMore(states, events, "B", Request(ASK));
    states, events := states + [ASKED], events + [Request(ASK)];
    DropStep();
    OneMore(states, events, "B", Request(DROP));
    states, events := states + [DROPPED], events + [Request(DROP)];
  }
}
