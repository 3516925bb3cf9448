/** One batched Browse with its continuation points and retries (adapters/asyncua/upstream.py). */
module BrowsePaging {
  import opened Neutral
  import opened AddressWalk

  datatype Status = Good | BadNoContinuationPoints | OtherStatus

  /** One reference as its page describes it; the data attributes are read later. */
  datatype Ref = Ref(info: NodeInfo, relationship: string)

  datatype AttrValue = Text(text: string) | Number(number: int) | OtherValue

  /** Opaque to the client: the server's note of where the next page starts. */
  datatype Point = Point(node: string, offset: nat)

  datatype BrowseResult = BrowseResult(status: Status, references: seq<Ref>, point: Option<Point>)

  /** A server: what each node really refers to, and its answers, which may
      depend on everything asked so far (`tick` counts the requests). None is an exception. */
  datatype Server = Server(
    refs: string -> seq<Ref>,
    browse: (nat, seq<string>) -> Option<seq<BrowseResult>>,
    next: (nat, seq<Point>) -> Option<seq<BrowseResult>>,
    attribute: (string, nat) -> Option<AttrValue>,
    readFails: nat -> bool,
    ids: set<string>)
  {
    /** The ids of a finite address space are all that any answer mentions. */
    predicate Mentions(references: seq<Ref>) {
      forall i :: 0 <= i < |references| ==> references[i].info.nodeId in ids
    }

    predicate Known(results: seq<BrowseResult>) {
      forall i :: 0 <= i < |results| ==> Mentions(results[i].references)
    }

    /** `r` carries the references of `node` from `offset` to its point, or to the end without one. */
    predicate PageFrom(node: string, offset: nat, r: BrowseResult) {
      var end := if r.point.Some? then r.point.value.offset else |refs(node)|;
      offset <= end <= |refs(node)| && r.references == refs(node)[offset..end]
    }

    predicate FirstPage(node: string, r: BrowseResult) {
      && Mentions(r.references)
      && (r.point.Some? ==> r.point.value.node == node && r.point.value.offset <= |refs(node)|)
      && (r.status.Good? ==> PageFrom(node, 0, r))
    }

    predicate NextPage(p: Point, r: BrowseResult) {
      && Mentions(r.references)
      && (r.point.Some? ==> r.point.value.node == p.node && p.offset < r.point.value.offset <= |refs(p.node)|)
      && (r.status.Good? ==> PageFrom(p.node, p.offset, r))
    }

    /** Every Browse answers one result per node without an exception, and every Read succeeds. */
    ghost predicate Forthcoming() {
      && (forall tick, nodes :: browse(tick, nodes).Some? && |browse(tick, nodes).value| == |nodes|)
      && (forall tick :: !readFails(tick))
    }

    /** What sections 5.8.2 and 5.8.3 of OPC UA Part 4 promise: a Good answer is a true page,
        and continuation points advance. An answer of any other status may hold anything. */
    ghost predicate Lawful() {
      && (forall node :: Mentions(refs(node)))
      && (forall tick, nodes :: browse(tick, nodes).Some? ==>
            var rs := browse(tick, nodes).value;
            |rs| <= |nodes| && forall i :: 0 <= i < |rs| ==> FirstPage(nodes[i], rs[i]))
      && (forall tick, points :: next(tick, points).Some? ==>
            var rs := next(tick, points).value;
            |rs| == |points| && forall i :: 0 <= i < |rs| ==> NextPage(points[i], rs[i]))
    }
  }

  // ------------------------------------------------------------------ draining, on values

  /** Result `index` still has a page to fetch at `point`. */
  datatype Pending = Pending(index: nat, point: Point)

  function Points(todo: seq<Pending>): (points: seq<Point>)
    ensures |points| == |todo| && forall k :: 0 <= k < |todo| ==> points[k] == todo[k].point
  {
    seq(|todo|, k requires 0 <= k < |todo| => todo[k].point)
  }

  /** Every unfinished result is in `todo` once, at the right offset. */
  ghost predicate Targets(server: Server, nodes: seq<string>, todo: seq<Pending>) {
    && (forall k :: 0 <= k < |todo| ==>
          var t := todo[k];
          && t.index < |nodes| && t.point.node == nodes[t.index] && t.point.offset <= |server.refs(nodes[t.index])|)
    && (forall j, k :: 0 <= j < k < |todo| ==> todo[j].index != todo[k].index)
  }

  ghost predicate Listed(todo: seq<Pending>, i: nat) {
    exists k :: 0 <= k < |todo| && todo[k].index == i
  }

  /** Good results hold their references up to the pending offset, all of them when nothing is pending. */
  ghost predicate Drained(server: Server, nodes: seq<string>, results: seq<BrowseResult>, todo: seq<Pending>)
    requires |results| <= |nodes| && Targets(server, nodes, todo)
  {
    && (forall k :: 0 <= k < |todo| && todo[k].index < |results| && results[todo[k].index].status.Good? ==>
          results[todo[k].index].references == server.refs(nodes[todo[k].index])[..todo[k].point.offset])
    && (forall i :: 0 <= i < |results| && results[i].status.Good? && !Listed(todo, i) ==>
          results[i].references == server.refs(nodes[i]))
  }

  /** Pages left at most: each further point lies beyond the last. */
  ghost function Left(server: Server, todo: seq<Pending>): int {
    if todo == [] then 0 else
      |server.refs(todo[0].point.node)| - todo[0].point.offset + 1 + Left(server, todo[1..])
  }

  lemma {:induction false} LeftAppend(server: Server, a: seq<Pending>, b: seq<Pending>)
    ensures Left(server, a + b) == Left(server, a) + Left(server, b)
  {
    if a == [] {
      assert a + b == b;
    } else {
      assert (a + b)[1..] == a[1..] + b;
      LeftAppend(server, a[1..], b);
    }
  }

  lemma {:induction false} LeftBounds(server: Server, nodes: seq<string>, todo: seq<Pending>)
    requires Targets(server, nodes, todo)
    ensures Left(server, todo) >= |todo|
  {
    if todo != [] {
      LeftBounds(server, nodes, todo[1..]);
    }
  }

  /** What absorbing one BrowseNext answer makes of the results. */
  function Absorb(results: seq<BrowseResult>, i: nat, r: BrowseResult): seq<BrowseResult>
    requires i < |results|
  {
    results[i := results[i].(references := results[i].references + r.references)]
  }

  function Again(t: Pending, r: BrowseResult): seq<Pending> {
    if r.point.Some? then [Pending(t.index, r.point.value)] else []
  }

  lemma TargetsAgain(server: Server, nodes: seq<string>, done: seq<Pending>, t: Pending, rest: seq<Pending>,
                     r: BrowseResult)
    requires Targets(server, nodes, done + [t] + rest) && server.NextPage(t.point, r)
    ensures Targets(server, nodes, done + Again(t, r) + rest)
  {
    var before, after := done + [t] + rest, done + Again(t, r) + rest;
    assert before[|done|] == t;
    if r.point.Some? {
      assert after == before[|done| := Again(t, r)[0]];
    } else {
      assert forall k :: 0 <= k < |after| ==> after[k] == before[if k < |done| then k else k + 1];
    }
  }

  /** Absorbing the page of the first unprocessed entry keeps all entries due, and comes closer to the end. */
  lemma AbsorbKeepsTargets(
    server: Server, nodes: seq<string>, done: seq<Pending>, t: Pending, rest: seq<Pending>, r: BrowseResult)
    requires Targets(server, nodes, done + [t] + rest) && server.NextPage(t.point, r)
    ensures Targets(server, nodes, done + Again(t, r) + rest)
    ensures Left(server, done + Again(t, r) + rest) < Left(server, done + [t] + rest)
  {
    TargetsAgain(server, nodes, done, t, rest, r);
    assert (done + [t] + rest)[|done|] == t;
    LeftAppend(server, done + [t], rest);
    LeftAppend(server, done, [t]);
    LeftAppend(server, done + Again(t, r), rest);
    LeftAppend(server, done, Again(t, r));
  }

  lemma ListedAgain(done: seq<Pending>, t: Pending, rest: seq<Pending>, again: seq<Pending>, i: nat)
    requires |again| <= 1 && (again != [] ==> again[0].index == t.index)
    requires i != t.index || again != []
    ensures Listed(done + [t] + rest, i) == Listed(done + again + rest, i)
  {
    var before, after := done + [t] + rest, done + again + rest;
    if Listed(before, i) {
      var k :| 0 <= k < |before| && before[k].index == i;
      assert after[if k <= |done| then k else k - 1 + |again|].index == i;
    }
    if Listed(after, i) {
      var k :| 0 <= k < |after| && after[k].index == i;
      assert before[if k < |done| then k else k + 1 - |again|].index == i;
    }
  }

  lemma AbsorbKeepsDrained(
    server: Server, nodes: seq<string>, results: seq<BrowseResult>,
    done: seq<Pending>, t: Pending, rest: seq<Pending>, r: BrowseResult)
    requires |results| <= |nodes| && t.index < |results|
    requires Targets(server, nodes, done + [t] + rest) && Drained(server, nodes, results, done + [t] + rest)
    requires Targets(server, nodes, done + Again(t, r) + rest)
    requires server.NextPage(t.point, r) && r.status.Good?
    ensures Drained(server, nodes, Absorb(results, t.index, r), done + Again(t, r) + rest)
  {
    var before, after := done + [t] + rest, done + Again(t, r) + rest;
    var now := Absorb(results, t.index, r);
    var all := server.refs(nodes[t.index]);
    assert before[|done|] == t;
    var end := if r.point.Some? then r.point.value.offset else |all|;
    assert all[..t.point.offset] + all[t.point.offset..end] == all[..end];
    assert all[..|all|] == all;
    assert r.point.Some? ==> after[|done|].index == t.index && Listed(after, t.index);
    forall k | 0 <= k < |after| && after[k].index < |now| && now[after[k].index].status.Good?
      ensures now[after[k].index].references == server.refs(nodes[after[k].index])[..after[k].point.offset]
    {
      if k < |done| {
        assert after[k] == before[k];
      } else if r.point.Some? && k == |done| {
        assert after[k] == Again(t, r)[0];
      } else {
        assert after[k] == before[k - |Again(t, r)| + 1];
      }
    }
    forall i | 0 <= i < |now| && now[i].status.Good? && !Listed(after, i)
      ensures now[i].references == server.refs(nodes[i])
    {
      if i != t.index {
        ListedAgain(done, t, rest, Again(t, r), i);
      }
    }
  }

  function Statuses(results: seq<BrowseResult>): (statuses: seq<Status>)
    ensures |statuses| == |results| && forall i :: 0 <= i < |results| ==> statuses[i] == results[i].status
  {
    seq(|results|, i requires 0 <= i < |results| => results[i].status)
  }

  predicate InRange(todo: seq<Pending>, n: nat) {
    forall k :: 0 <= k < |todo| ==> todo[k].index < n
  }

  /** Within a round: the results, the entries with yet another page, the bad answers counted. */
  datatype Round = Round(results: seq<BrowseResult>, again: seq<Pending>, starved: nat, otherBad: nat)

  function TakeIn(s: Round, t: Pending, r: BrowseResult): Round
    requires t.index < |s.results|
  {
    Round(Absorb(s.results, t.index, r), s.again + Again(t, r),
          s.starved + (if r.status.BadNoContinuationPoints? then 1 else 0),
          s.otherBad + (if r.status.OtherStatus? then 1 else 0))
  }

  function TakeAll(s: Round, pending: seq<Pending>, answers: seq<BrowseResult>): Round
    requires |answers| == |pending| && InRange(pending, |s.results|)
    decreases |pending|
  {
    if pending == [] then s else TakeAll(TakeIn(s, pending[0], answers[0]), pending[1..], answers[1..])
  }

  /** What a round keeps; `clean` says that no answer had gone wrong before it. */
  ghost predicate Sound(server: Server, nodes: seq<string>, s: Round, rest: seq<Pending>, clean: bool) {
    && |s.results| <= |nodes|
    && Targets(server, nodes, s.again + rest)
    && InRange(s.again + rest, |s.results|)
    && (clean && s.starved == s.otherBad == 0 ==> Drained(server, nodes, s.results, s.again + rest))
  }

  lemma AgainInRange(done: seq<Pending>, t: Pending, rest: seq<Pending>, r: BrowseResult, n: nat)
    requires InRange(done + [t] + rest, n)
    ensures InRange(done + Again(t, r) + rest, n)
  {
    var before, after := done + [t] + rest, done + Again(t, r) + rest;
    assert before[|done|] == t;
    forall k | 0 <= k < |after| ensures after[k].index < n {
      assert k < |done| ==> after[k] == before[k];
      assert k >= |done| + |Again(t, r)| ==> after[k] == before[k + 1 - |Again(t, r)|];
    }
  }

  lemma TakeInKeepsSound(server: Server, nodes: seq<string>, s: Round, t: Pending, rest: seq<Pending>, r: BrowseResult,
      clean: bool)
    requires Sound(server, nodes, s, [t] + rest, clean) && server.NextPage(t.point, r)
    ensures t.index < |s.results|
    ensures Sound(server, nodes, TakeIn(s, t, r), rest, clean)
    ensures Left(server, TakeIn(s, t, r).again + rest) < Left(server, s.again + ([t] + rest))
  {
    var before, after := s.again + [t] + rest, s.again + Again(t, r) + rest;
    assert before == s.again + ([t] + rest);
    assert before[|s.again|] == t;
    AbsorbKeepsTargets(server, nodes, s.again, t, rest, r);
    AgainInRange(s.again, t, rest, r, |s.results|);
    if clean && s.starved == s.otherBad == 0 && r.status.Good? {
      AbsorbKeepsDrained(server, nodes, s.results, s.again, t, rest, r);
    }
  }

  lemma InRangeSuffix(done: seq<Pending>, pending: seq<Pending>, n: nat)
    requires InRange(done + pending, n)
    ensures InRange(pending, n)
  {
    assert forall k :: 0 <= k < |pending| ==> (done + pending)[|done| + k] == pending[k];
  }

  /** A whole round keeps what one answer keeps, and shrinks what is left. */
  lemma {:induction false} TakeAllKeepsSound(
    server: Server, nodes: seq<string>, s: Round, pending: seq<Pending>, answers: seq<BrowseResult>, clean: bool)
    requires Sound(server, nodes, s, pending, clean) && |answers| == |pending|
    requires forall k :: 0 <= k < |answers| ==> server.NextPage(pending[k].point, answers[k])
    ensures InRange(pending, |s.results|)
    ensures Sound(server, nodes, TakeAll(s, pending, answers), [], clean)
    ensures Left(server, TakeAll(s, pending, answers).again) + |pending| <= Left(server, s.again + pending)
    decreases |pending|
  {
    InRangeSuffix(s.again, pending, |s.results|);
    if pending == [] {
      assert s.again + pending == s.again;
    } else {
      var t, r, rest := pending[0], answers[0], pending[1..];
      assert pending == [t] + rest;
      TakeInKeepsSound(server, nodes, s, t, rest, r, clean);
      TakeAllKeepsSound(server, nodes, TakeIn(s, t, r), rest, answers[1..], clean);
    }
  }

  /** A round changes references only, and adds only what the answers mention. */
  lemma {:induction false} TakeAllKeepsRest(server: Server, s: Round, pending: seq<Pending>, answers: seq<BrowseResult>)
    requires |answers| == |pending| && InRange(pending, |s.results|)
    requires server.Known(s.results) && server.Known(answers)
    ensures server.Known(TakeAll(s, pending, answers).results)
    ensures Statuses(TakeAll(s, pending, answers).results) == Statuses(s.results)
    ensures TakeAll(s, pending, answers).starved >= s.starved && TakeAll(s, pending, answers).otherBad >= s.otherBad
    decreases |pending|
  {
    if pending != [] {
      var now := TakeIn(s, pending[0], answers[0]);
      assert Statuses(now.results) == Statuses(s.results);
      assert server.Known(now.results);
      TakeAllKeepsRest(server, now, pending[1..], answers[1..]);
    }
  }

  /** The results whose first page ends in a continuation point. */
  function InitialPoints(results: seq<BrowseResult>): (todo: seq<Pending>)
    ensures forall k :: 0 <= k < |todo| ==>
      todo[k].index < |results| && results[todo[k].index].point == Some(todo[k].point)
    ensures forall j, k :: 0 <= j < k < |todo| ==> todo[j].index < todo[k].index
    decreases |results|
  {
    if results == [] then [] else
      var n := |results| - 1;
      var front := InitialPoints(results[..n]);
      if results[n].point.Some? then front + [Pending(n, results[n].point.value)] else front
  }

  lemma {:induction false} InitialPointsListed(results: seq<BrowseResult>, i: nat)
    requires i < |results| && results[i].point.Some?
    ensures Listed(InitialPoints(results), i)
    decreases |results|
  {
    var n := |results| - 1;
    var front, todo := InitialPoints(results[..n]), InitialPoints(results);
    if i == n {
      assert todo[|front|].index == n;
    } else {
      InitialPointsListed(results[..n], i);
      var k :| 0 <= k < |front| && front[k].index == i;
      assert todo[k].index == i;
    }
  }

  lemma InitialSound(server: Server, nodes: seq<string>, results: seq<BrowseResult>)
    requires |results| <= |nodes| && forall i :: 0 <= i < |results| ==> server.FirstPage(nodes[i], results[i])
    ensures Sound(server, nodes, Round(results, [], 0, 0), InitialPoints(results), true)
  {
    assert [] + InitialPoints(results) == InitialPoints(results);
    InitialDrained(server, nodes, results);
  }

  lemma InitialDrained(server: Server, nodes: seq<string>, results: seq<BrowseResult>)
    requires |results| <= |nodes| && forall i :: 0 <= i < |results| ==> server.FirstPage(nodes[i], results[i])
    ensures Targets(server, nodes, InitialPoints(results)) && Drained(server, nodes, results, InitialPoints(results))
  {
    var todo := InitialPoints(results);
    forall i | 0 <= i < |results| && results[i].status.Good? && !Listed(todo, i)
      ensures results[i].references == server.refs(nodes[i])
    {
      if results[i].point.Some? {
        InitialPointsListed(results, i);
      }
      assert server.refs(nodes[i])[0..|server.refs(nodes[i])|] == server.refs(nodes[i]);
    }
  }

  /** With nothing pending and no bad answer, every Good result is complete. */
  lemma SoundAndDone(server: Server, nodes: seq<string>, results: seq<BrowseResult>)
    requires Sound(server, nodes, Round(results, [], 0, 0), [], true)
    ensures forall i :: 0 <= i < |results| && results[i].status.Good? ==> results[i].references == server.refs(nodes[i])
  {
    assert forall i: nat :: !Listed([], i);
    assert Drained(server, nodes, results, [] + []);
  }

  /** The results a retry is due for, in order. */
  function Starved(results: seq<BrowseResult>): (indices: seq<nat>)
    ensures forall i :: i in indices <==> 0 <= i < |results| && results[i].status.BadNoContinuationPoints?
    decreases |results|
  {
    if results == [] then [] else
      var n := |results| - 1;
      Starved(results[..n]) + (if results[n].status.BadNoContinuationPoints? then [n] else [])
  }

  /** Not starved any more, and complete if Good. */
  predicate Whole(server: Server, node: string, r: BrowseResult) {
    !r.status.BadNoContinuationPoints? && (r.status.Good? ==> r.references == server.refs(node))
  }

  /** Only starved results have changed, and if all went well those from the `n`-th on are whole. */
  ghost predicate RetriedFrom(
    server: Server, nodes: seq<string>, before: seq<BrowseResult>, now: seq<BrowseResult>, n: nat, clean: bool)
  {
    var all := Starved(before);
    && |now| == |before| <= |nodes| && n <= |all|
    && (forall i :: 0 <= i < |now| && !before[i].status.BadNoContinuationPoints? ==> now[i] == before[i])
    && (clean ==> forall k :: n <= k < |all| ==> all[k] < |now| && Whole(server, nodes[all[k]], now[all[k]]))
  }

  lemma RetriedOne(
    server: Server, nodes: seq<string>, before: seq<BrowseResult>, now: seq<BrowseResult>, n: nat, slot: BrowseResult,
    clean: bool, stillClean: bool)
    requires n < |Starved(before)| && RetriedFrom(server, nodes, before, now, n + 1, clean)
    requires Starved(before)[n] < |now|
    requires stillClean ==> clean && Whole(server, nodes[Starved(before)[n]], slot)
    ensures RetriedFrom(server, nodes, before, now[Starved(before)[n] := slot], n, stillClean)
  {
    assert Starved(before)[n] in Starved(before);
  }

  lemma AllRetried(server: Server, nodes: seq<string>, before: seq<BrowseResult>, now: seq<BrowseResult>)
    requires RetriedFrom(server, nodes, before, now, 0, true)
    ensures forall i :: 0 <= i < |now| && before[i].status.BadNoContinuationPoints? ==> Whole(server, nodes[i], now[i])
  {
    forall i | 0 <= i < |now| && before[i].status.BadNoContinuationPoints? ensures Whole(server, nodes[i], now[i]) {
      assert i in Starved(before);
    }
  }

  // ------------------------------------------------------------------ children and their metadata

  /** A Browse answers for all attributes but those of a Variable's data. */
  function Child(parent: string, ref: Ref): BrowsedChild {
    BrowsedChild(ref.info.(dataType := None, accessLevel := None, valueRank := None), Some(parent), ref.relationship)
  }

  function ChildrenOf(parent: string, refs: seq<Ref>): seq<BrowsedChild> {
    seq(|refs|, i requires 0 <= i < |refs| => Child(parent, refs[i]))
  }

  /** The children of all Good results, parent by parent. */
  function Collect(parents: seq<string>, results: seq<BrowseResult>): seq<BrowsedChild>
    requires |results| <= |parents|
    decreases |results|
  {
    if results == [] then [] else
      (if results[0].status.Good? then ChildrenOf(parents[0], results[0].references) else [])
      + Collect(parents[1..], results[1..])
  }

  function BadParents(results: seq<BrowseResult>): nat {
    if results == [] then 0 else (if results[0].status.Good? then 0 else 1) + BadParents(results[1..])
  }

  /** DataType, ValueRank, ArrayDimensions, AccessLevel, UserAccessLevel,
      MinimumSamplingInterval and Historizing, in this order. */
  const ATTRIBUTES := 7

  /** One item per variable and attribute, variable by variable. */
  function MetadataItems(variables: seq<string>): seq<(string, nat)> {
    if variables == [] then [] else
      seq(ATTRIBUTES, a requires 0 <= a < ATTRIBUTES => (variables[0], a)) + MetadataItems(variables[1..])
  }

  function OwnAttributes(server: Server, node: string): seq<Option<AttrValue>> {
    seq(ATTRIBUTES, a requires 0 <= a < ATTRIBUTES => server.attribute(node, a))
  }

  function AsText(v: Option<AttrValue>): Option<string> {
    if v.Some? && v.value.Text? then Some(v.value.text) else None
  }

  function AsNumber(v: Option<AttrValue>): Option<int> {
    if v.Some? && v.value.Number? then Some(v.value.number) else None
  }

  function Enrich(bc: BrowsedChild, attributes: seq<Option<AttrValue>>): BrowsedChild
    requires |attributes| == ATTRIBUTES
  {
    bc.(info := bc.info.(dataType := AsText(attributes[0]), valueRank := AsNumber(attributes[1]),
                         accessLevel := AsNumber(attributes[3])))
  }

  /** A child as the server holds it: a Variable with its own attributes. */
  function Informed(server: Server, bc: BrowsedChild): BrowsedChild {
    if bc.info.nodeClass.Variable? then Enrich(bc, OwnAttributes(server, bc.info.nodeId)) else bc
  }

  function InformedAll(server: Server, bcs: seq<BrowsedChild>): seq<BrowsedChild> {
    seq(|bcs|, i requires 0 <= i < |bcs| => Informed(server, bcs[i]))
  }

  /** What the server really has below these parents. */
  function TrueChildren(server: Server, parents: seq<string>): seq<BrowsedChild> {
    if parents == [] then [] else
      ChildrenOf(parents[0], server.refs(parents[0])) + TrueChildren(server, parents[1..])
  }

  function VariableIndices(bcs: seq<BrowsedChild>): (indices: seq<nat>)
    ensures forall i :: i in indices <==> 0 <= i < |bcs| && bcs[i].info.nodeClass.Variable?
  {
    if bcs == [] then [] else
      var n := |bcs| - 1;
      VariableIndices(bcs[..n]) + (if bcs[n].info.nodeClass.Variable? then [n] else [])
  }

  /** Enriching every Variable informs them all. */
  lemma FilledIn(server: Server, bcs: seq<BrowsedChild>, children: seq<BrowsedChild>)
    requires |children| == |bcs|
    requires forall i :: 0 <= i < |bcs| ==>
      children[i] == if i in VariableIndices(bcs) then Informed(server, bcs[i]) else bcs[i]
    ensures children == InformedAll(server, bcs)
  {
  }

  lemma {:induction false} AllGoodIsTrue(server: Server, parents: seq<string>, results: seq<BrowseResult>)
    requires |results| <= |parents| && BadParents(results) == 0
    requires forall i :: 0 <= i < |results| && results[i].status.Good? ==>
        results[i].references == server.refs(parents[i])
    ensures Collect(parents, results) == TrueChildren(server, parents[..|results|])
    decreases |results|
  {
    if results != [] {
      assert parents[..|results|][1..] == parents[1..][..|results| - 1];
      AllGoodIsTrue(server, parents[1..], results[1..]);
    }
  }

  /** A result without its references unless it is Good. */
  function Kept(results: seq<BrowseResult>): seq<BrowseResult> {
    seq(|results|, i requires 0 <= i < |results| => if results[i].status.Good? then results[i]
        else results[i].(references := []))
  }

  /** Whatever a result that is not Good still carries, a partial list included, comes to nothing. */
  lemma {:induction false} PartialIsDropped(parents: seq<string>, results: seq<BrowseResult>)
    requires |results| <= |parents|
    ensures Collect(parents, results) == Collect(parents, Kept(results))
    ensures BadParents(results) == BadParents(Kept(results))
    decreases |results|
  {
    if results != [] {
      assert Kept(results)[1..] == Kept(results[1..]);
      PartialIsDropped(parents[1..], results[1..]);
    }
  }

  lemma {:induction false} CollectWithin(server: Server, parents: seq<string>, results: seq<BrowseResult>)
    requires |results| <= |parents| && server.Known(results)
    ensures Within(server.ids, Collect(parents, results))
    decreases |results|
  {
    if results != [] {
      CollectWithin(server, parents[1..], results[1..]);
    }
  }

  /** A clean batch is the concatenation the walk builds on. */
  lemma {:induction false} TrueChildrenIsFlatten(server: Server, space: Space, parents: seq<string>)
    requires forall p <- parents :: space.children(p) == InformedAll(server, ChildrenOf(p, server.refs(p)))
    ensures InformedAll(server, TrueChildren(server, parents)) == Flatten(space, parents)
  {
    if parents != [] {
      TrueChildrenIsFlatten(server, space, parents[1..]);
      var a, b := ChildrenOf(parents[0], server.refs(parents[0])), TrueChildren(server, parents[1..]);
      assert InformedAll(server, a + b) == InformedAll(server, a) + InformedAll(server, b);
    }
  }

  // ------------------------------------------------------------------ the browse source

  /** What one whole round of answers leaves. */
  lemma FetchedSound(server: Server, nodes: seq<string>, start: Round, pending: seq<Pending>,
                     answers: seq<BrowseResult>, clean: bool)
    requires start == Round(start.results, [], 0, 0) && Sound(server, nodes, start, pending, clean) && pending != []
    requires |answers| == |pending| && forall k :: 0 <= k < |answers| ==> server.NextPage(pending[k].point, answers[k])
    requires server.Known(start.results) && server.Known(answers)
    ensures InRange(pending, |start.results|)
    ensures var end := TakeAll(start, pending, answers);
      && Sound(server, nodes, Round(end.results, [], 0, 0), end.again, clean && end.starved == end.otherBad == 0)
      && server.Known(end.results) && Statuses(end.results) == Statuses(start.results)
      && 0 <= Left(server, end.again) < Left(server, pending)
  {
    assert [] + pending == pending;
    var end := TakeAll(start, pending, answers);
    TakeAllKeepsSound(server, nodes, start, pending, answers, clean);
    TakeAllKeepsRest(server, start, pending, answers);
    assert [] + end.again == end.again + [] == end.again;
    LeftBounds(server, nodes, end.again);
  }

  /** The adapter's browse source with its continuation-point health counters. */
  class BrowseSource {
    const server: Server
    var tick: nat
    var initialCalls: nat
    var initialStarved: nat
    var recovered: nat
    var unrecoverable: nat
    var nextCalls: nat
    var nextStarved: nat
    var nextOtherBad: nat
    var parentBad: nat

    constructor (server: Server)
      ensures this.server == server
      ensures initialCalls == initialStarved == recovered == unrecoverable == 0
      ensures nextCalls == nextStarved == nextOtherBad == parentBad == 0
    {
      this.server := server;
      tick, initialCalls, initialStarved, recovered, unrecoverable := 0, 0, 0, 0, 0;
      nextCalls, nextStarved, nextOtherBad, parentBad := 0, 0, 0, 0;
    }

    /** initialCalls apart: the retry counters, then the counters of failures. */
    function Counters(): (nat, nat, nat, nat, nat, nat)
      reads this
    {
      (initialStarved, recovered, unrecoverable, nextStarved, nextOtherBad, parentBad)
    }

    predicate CountersAsBefore(was: (nat, nat, nat, nat, nat, nat))
      reads this
    {
      Counters() == was
    }

    /** The four counters that report lost children stand where they stood. */
    predicate FailuresAsBefore(was: (nat, nat, nat, nat, nat, nat))
      reads this
    {
      unrecoverable == was.2 && nextStarved == was.3 && nextOtherBad == was.4 && parentBad == was.5
    }

    /** Take in one BrowseNext answer: count it and append its references to its result in place. */
    method AbsorbOne(results: array<BrowseResult>, i: nat, r: BrowseResult)
      requires i < results.Length
      modifies this`nextCalls, this`nextStarved, this`nextOtherBad, results
      ensures results[..] == Absorb(old(results[..]), i, r)
      ensures nextCalls == old(nextCalls) + 1
      ensures nextStarved == old(nextStarved) + (if r.status.BadNoContinuationPoints? then 1 else 0)
      ensures nextOtherBad == old(nextOtherBad) + (if r.status.OtherStatus? then 1 else 0)
    {
      nextCalls := nextCalls + 1;
      if r.status.BadNoContinuationPoints? {
        nextStarved := nextStarved + 1;
      } else if !r.status.Good? {
        nextOtherBad := nextOtherBad + 1;
      }
      results[i] := results[i].(references := results[i].references + r.references);
    }

    /** Take in one round of answers, and list the results with yet another page. */
    method AbsorbRound(results: array<BrowseResult>, pending: seq<Pending>, answers: seq<BrowseResult>)
      returns (again: seq<Pending>)
      requires |answers| == |pending| && InRange(pending, results.Length)
      modifies this`nextCalls, this`nextStarved, this`nextOtherBad, results
      ensures nextCalls == old(nextCalls) + |pending|
      ensures nextStarved >= old(nextStarved) && nextOtherBad >= old(nextOtherBad)
      ensures Round(results[..], again, nextStarved - old(nextStarved), nextOtherBad - old(nextOtherBad))
           == TakeAll(Round(old(results[..]), [], 0, 0), pending, answers)
    {
      again := [];
      for k := 0 to |pending|
        invariant nextCalls == old(nextCalls) + k
        invariant nextStarved >= old(nextStarved) && nextOtherBad >= old(nextOtherBad)
        invariant TakeAll(Round(results[..], again, nextStarved - old(nextStarved), nextOtherBad - old(nextOtherBad)),
                          pending[k..], answers[k..])
               == TakeAll(Round(old(results[..]), [], 0, 0), pending, answers)
      {
        var t, r := pending[k], answers[k];
        assert pending[k..][0] == t && pending[k..][1..] == pending[k + 1..];
        assert answers[k..][0] == r && answers[k..][1..] == answers[k + 1..];
        AbsorbOne(results, t.index, r);
        again := again + Again(t, r);
      }
    }

    /** No BrowseNext has gone wrong since the two counters stood at these values. */
    predicate NextClean(starved: nat, otherBad: nat)
      reads this
    {
      nextStarved == starved && nextOtherBad == otherBad
    }

    /** One BrowseNext for all pending results. */
    method FetchRound(results: array<BrowseResult>, pending: seq<Pending>, ghost nodes: seq<string>, ghost clean: bool)
      returns (again: Option<seq<Pending>>)
      requires server.Lawful() && pending != []
      requires Sound(server, nodes, Round(results[..], [], 0, 0), pending, clean) && server.Known(results[..])
      modifies this`tick, this`nextCalls, this`nextStarved, this`nextOtherBad, results
      ensures nextStarved >= old(nextStarved) && nextOtherBad >= old(nextOtherBad)
      ensures Statuses(results[..]) == old(Statuses(results[..])) && server.Known(results[..])
      ensures again.Some? ==>
        && Sound(server, nodes, Round(results[..], [], 0, 0), again.value,
                 clean && NextClean(old(nextStarved), old(nextOtherBad)))
        && 0 <= Left(server, again.value) < Left(server, pending)
    {
      var answers := server.next(tick, Points(pending));
      tick := tick + 1;
      if answers.None? {
        return None;
      }
      ghost var start := Round(results[..], [], 0, 0);
      FetchedSound(server, nodes, start, pending, answers.value, clean);
      var more := AbsorbRound(results, pending, answers.value);
      return Some(more);
    }

    /** Drain every continuation point. Unless a counter of bad answers moved (or an
        exception ended the browse), each Good result ends up with all its references. */
    method FollowContinuations(results: array<BrowseResult>, ghost nodes: seq<string>) returns (raised: bool)
      requires server.Lawful() && results.Length <= |nodes|
      requires forall i :: 0 <= i < results.Length ==> server.FirstPage(nodes[i], results[i])
      modifies this`tick, this`nextCalls, this`nextStarved, this`nextOtherBad, results
      ensures nextStarved >= old(nextStarved) && nextOtherBad >= old(nextOtherBad)
      ensures Statuses(results[..]) == old(Statuses(results[..])) && server.Known(results[..])
      ensures !raised && NextClean(old(nextStarved), old(nextOtherBad)) ==>
        forall i :: 0 <= i < results.Length && results[i].status.Good? ==>
            results[i].references == server.refs(nodes[i])
    {
      ghost var starved0, otherBad0, statuses := nextStarved, nextOtherBad, Statuses(results[..]);
      var pending := InitialPoints(results[..]);
      InitialSound(server, nodes, results[..]);
      while pending != []
        invariant Sound(server, nodes, Round(results[..], [], 0, 0), pending, NextClean(starved0, otherBad0))
        invariant nextStarved >= starved0 && nextOtherBad >= otherBad0
        invariant Statuses(results[..]) == statuses && server.Known(results[..])
        decreases Left(server, pending)
      {
        var again := FetchRound(results, pending, nodes, NextClean(starved0, otherBad0));
        if again.None? {
          return true;
        }
        pending := again.value;
      }
      if NextClean(starved0, otherBad0) {
        SoundAndDone(server, nodes, results[..]);
      }
      return false;
    }

    /** Browse each starved node again, alone. Every starved result is accounted for as
        recovered or unrecoverable and no other result is touched. Unless a counter of bad
        answers moved, what a retry recovered with status Good is complete. */
    method RetryStarved(results: array<BrowseResult>, nodes: seq<string>) returns (raised: bool)
      requires server.Lawful() && results.Length <= |nodes|
      requires server.Known(results[..])
      modifies this`tick, this`nextCalls, this`nextStarved, this`nextOtherBad,
               this`initialStarved, this`recovered, this`unrecoverable, results
      ensures nextStarved >= old(nextStarved) && nextOtherBad >= old(nextOtherBad)
      ensures recovered >= old(recovered) && unrecoverable >= old(unrecoverable)
      ensures initialStarved - old(initialStarved) == |Starved(old(results[..]))|
      ensures recovered - old(recovered) + unrecoverable - old(unrecoverable) <= |Starved(old(results[..]))|
      ensures !raised ==>
        recovered - old(recovered) + unrecoverable - old(unrecoverable) == |Starved(old(results[..]))|
      ensures server.Known(results[..])
      ensures forall i :: 0 <= i < results.Length && !old(results[..])[i].status.BadNoContinuationPoints? ==>
        results[i] == old(results[..])[i]
      ensures !raised && NextClean(old(nextStarved), old(nextOtherBad)) && unrecoverable == old(unrecoverable) ==>
        forall i :: 0 <= i < results.Length && old(results[..])[i].status.BadNoContinuationPoints? ==>
          Whole(server, nodes[i], results[i])
    {
      var starved := Starved(results[..]);
      ghost var all, before := starved, results[..];
      initialStarved := initialStarved + |starved|;
      while starved != []
        invariant |starved| <= |all| && starved == all[..|starved|]
        invariant initialStarved == old(initialStarved) + |all|
        invariant nextStarved >= old(nextStarved) && nextOtherBad >= old(nextOtherBad)
        invariant recovered >= old(recovered) && unrecoverable >= old(unrecoverable)
        invariant recovered - old(recovered) + unrecoverable - old(unrecoverable) == |all| - |starved|
        invariant server.Known(results[..])
        invariant RetriedFrom(server, nodes, before, results[..], |starved|,
                              NextClean(old(nextStarved), old(nextOtherBad)) && unrecoverable == old(unrecoverable))
        decreases |starved|
      {
        var idx := starved[|starved| - 1];
        assert idx in starved && idx in all;
        starved := starved[..|starved| - 1];
        ghost var now, clean := results[..], NextClean(old(nextStarved), old(nextOtherBad))
            && unrecoverable == old(unrecoverable);
        var again := RetryAt(results, nodes, idx);
        RetriedOne(server, nodes, before, now, |starved|, results[idx], clean,
                   !again && NextClean(old(nextStarved), old(nextOtherBad)) && unrecoverable == old(unrecoverable));
        if again {
          return true;
        }
      }
      if NextClean(old(nextStarved), old(nextOtherBad)) && unrecoverable == old(unrecoverable) {
        AllRetried(server, nodes, before, results[..]);
      }
      return false;
    }

    /** One turn of that loop: at most the result at `idx` changes. */
    method RetryAt(results: array<BrowseResult>, nodes: seq<string>, idx: nat) returns (raised: bool)
      requires server.Lawful() && idx < results.Length <= |nodes| && server.Known(results[..])
      modifies this`tick, this`nextCalls, this`nextStarved, this`nextOtherBad, this`recovered, this`unrecoverable,
          results
      ensures nextStarved >= old(nextStarved) && nextOtherBad >= old(nextOtherBad)
      ensures recovered >= old(recovered) && unrecoverable >= old(unrecoverable)
      ensures recovered + unrecoverable == old(recovered) + old(unrecoverable) + (if raised then 0 else 1)
      ensures results[..] == old(results[..])[idx := results[idx]] && server.Known(results[..])
      ensures !raised && NextClean(old(nextStarved), old(nextOtherBad)) && unrecoverable == old(unrecoverable) ==>
        Whole(server, nodes[idx], results[idx])
    {
      var slot;
      slot, raised := BrowseAlone(nodes[idx]);
      if !raised && slot.Some? {
        results[idx] := slot.value;
      }
    }

    /** One retry: None when the server starves the node again or answers nothing. */
    method BrowseAlone(node: string) returns (slot: Option<BrowseResult>, raised: bool)
      requires server.Lawful()
      modifies this`tick, this`nextCalls, this`nextStarved, this`nextOtherBad, this`recovered, this`unrecoverable
      ensures nextStarved >= old(nextStarved) && nextOtherBad >= old(nextOtherBad)
      ensures !raised ==> recovered == old(recovered) + (if slot.Some? then 1 else 0)
      ensures !raised ==> unrecoverable == old(unrecoverable) + (if slot.None? then 1 else 0)
      ensures raised ==> recovered == old(recovered) && unrecoverable == old(unrecoverable)
      ensures slot.Some? ==> server.Mentions(slot.value.references)
      ensures !raised && NextClean(old(nextStarved), old(nextOtherBad)) && slot.Some? ==>
          Whole(server, node, slot.value)
    {
      slot := None;
      var answer := server.browse(tick, [node]);
      tick := tick + 1;
      if answer.None? {
        return None, true;
      }
      var pages := answer.value;
      var solo := new BrowseResult[|pages|](i requires 0 <= i < |pages| => pages[i]);
      raised := FollowContinuations(solo, [node]);
      if raised {
        return None, true;
      }
      if solo.Length > 0 && solo[0].status.BadNoContinuationPoints? {
        unrecoverable := unrecoverable + 1;
        return None, false;
      }
      if solo.Length == 0 {
        unrecoverable := unrecoverable + 1;
        return None, false;
      }
      recovered := recovered + 1;
      slot := Some(solo[0]);
    }

    /** Turn the results into children, counting the parents that failed. */
    method CollectChildren(parents: seq<string>, results: array<BrowseResult>) returns (children: seq<BrowsedChild>)
      requires results.Length <= |parents|
      modifies this`parentBad
      ensures children == Collect(parents, results[..])
      ensures parentBad == old(parentBad) + BadParents(results[..])
    {
      children := [];
      ghost var all := results[..];
      for k := 0 to results.Length
        invariant children + Collect(parents[k..], all[k..]) == Collect(parents, all)
        invariant parentBad + BadParents(all[k..]) == old(parentBad) + BadParents(all)
      {
        var parent, result := parents[k], results[k];
        assert all[k..][0] == result && all[k..][1..] == all[k + 1..];
        assert parents[k..][0] == parent && parents[k..][1..] == parents[k + 1..];
        if !result.status.Good? {
          parentBad := parentBad + 1;
          continue;
        }
        var before := children;
        for j := 0 to |result.references|
          invariant children == before + ChildrenOf(parent, result.references)[..j]
        {
          children := children + [Child(parent, result.references[j])];
        }
      }
    }

    /** The answers to the items from `k` on, which all ask about `node`. */
    method DecodeOne(items: seq<(string, nat)>, answers: seq<Option<AttrValue>>, k: nat, ghost node: string)
      returns (attributes: seq<Option<AttrValue>>)
      requires k + ATTRIBUTES <= |items| == |answers|
      requires forall a :: 0 <= a < ATTRIBUTES ==> items[k + a] == (node, a)
      requires forall j :: 0 <= j < |items| ==> answers[j] == server.attribute(items[j].0, items[j].1)
      ensures attributes == OwnAttributes(server, node)
    {
      attributes := [];
      for a := 0 to ATTRIBUTES
        invariant |attributes| == a && forall b :: 0 <= b < a ==> attributes[b] == server.attribute(node, b)
      {
        assert items[k + a] == (node, a);
        attributes := attributes + [answers[k + a]];
      }
    }

    /** Regroup the answers of one Read per variable. */
    method DecodeMetadata(items: seq<(string, nat)>, answers: seq<Option<AttrValue>>, ghost variables: seq<string>)
      returns (byNode: map<string, seq<Option<AttrValue>>>)
      requires items == MetadataItems(variables) && |answers| == |items|
      requires forall k :: 0 <= k < |items| ==> answers[k] == server.attribute(items[k].0, items[k].1)
      ensures forall v <- variables :: v in byNode && byNode[v] == OwnAttributes(server, v)
    {
      byNode := map[];
      var k := 0;
      ghost var done := 0;
      while k < |items|
        invariant k <= |items| && done <= |variables| && items[k..] == MetadataItems(variables[done..])
        invariant forall v :: 0 <= v < done ==>
            variables[v] in byNode && byNode[variables[v]] == OwnAttributes(server, variables[v])
      {
        ghost var rest := items[k..];
        assert variables[done..][1..] == variables[done + 1..];
        assert forall a :: 0 <= a < ATTRIBUTES ==> items[k + a] == rest[a] == (variables[done], a);
        assert items[k + ATTRIBUTES..] == rest[ATTRIBUTES..] == MetadataItems(variables[done + 1..]);
        var node := items[k].0;
        var attributes := DecodeOne(items, answers, k, node);
        byNode := byNode[node := attributes];
        k, done := k + ATTRIBUTES, done + 1;
      }
      assert MetadataItems(variables[done..]) == [] && done == |variables|;
    }

    /** Read the data attributes of all Variable children in one request; when it fails they stay unknown. */
    method ReadMetadata(children0: seq<BrowsedChild>) returns (children: seq<BrowsedChild>, failed: bool)
      modifies this`tick
      ensures failed ==> server.readFails(old(tick)) && tick == old(tick) + 1
      ensures children == if failed then children0 else InformedAll(server, children0)
    {
      children, failed := children0, false;
      var indices := VariableIndices(children);
      if indices == [] {
        assert forall i :: 0 <= i < |children| && children[i].info.nodeClass.Variable? ==> i in indices;
        assert InformedAll(server, children) == children;
        return;
      }
      var variables := seq(|indices|, k requires 0 <= k < |indices| =>
        (assert indices[k] in indices; children0[indices[k]].info.nodeId));
      var items := MetadataItems(variables);
      failed := server.readFails(tick);
      tick := tick + 1;
      if failed {
        return;
      }
      var answers := seq(|items|, k requires 0 <= k < |items| => server.attribute(items[k].0, items[k].1));
      var byNode := DecodeMetadata(items, answers, variables);
      forall i | i in indices
        ensures children0[i].info.nodeId in byNode
            && byNode[children0[i].info.nodeId] == OwnAttributes(server, children0[i].info.nodeId)
      {
        var k :| 0 <= k < |indices| && indices[k] == i;
        assert variables[k] in variables;
      }
      children := FillIn(children0, indices, byNode);
    }

    /** Every Variable child gets its own attributes. */
    method FillIn(children0: seq<BrowsedChild>, indices: seq<nat>, byNode: map<string, seq<Option<AttrValue>>>)
      returns (children: seq<BrowsedChild>)
      requires indices == VariableIndices(children0)
      requires forall i :: i in indices ==>
        children0[i].info.nodeId in byNode && byNode[children0[i].info.nodeId]
            == OwnAttributes(server, children0[i].info.nodeId)
      ensures children == InformedAll(server, children0)
    {
      children := children0;
      for k := 0 to |indices|
        invariant |children| == |children0|
        invariant forall i :: 0 <= i < |children| ==>
          children[i] == if i in indices[..k] then Informed(server, children0[i]) else children0[i]
      {
        var i := indices[k];
        assert i in indices;
        assert indices[..k + 1] == indices[..k] + [i];
        var info := children[i].info;
        if info.nodeId in byNode {
          children := children[i := Enrich(children[i], byNode[info.nodeId])];
        }
      }
      assert indices[..|indices|] == indices;
      FilledIn(server, children0, children);
    }

    /** One batched Browse. An exception in the first request answers no children and moves no counter of
        failures; one while draining, retrying or reading the namespaces escapes. Otherwise, when no counter of
        failures moved, the children are exactly what the server has below the answered parents, in order, each
        under its parent; a failed Read (`unread`) leaves their data attributes unknown. */
    method BrowseChildren(parents: seq<string>) returns (raised: bool, children: seq<BrowsedChild>, unread: bool)
      requires server.Lawful()
      modifies this
      ensures recovered - old(recovered) + unrecoverable - old(unrecoverable) <= initialStarved - old(initialStarved)
      ensures !raised ==>
        recovered - old(recovered) + unrecoverable - old(unrecoverable) == initialStarved - old(initialStarved)
      ensures Within(server.ids, children)
      ensures unread ==> tick > 0 && server.readFails(tick - 1)
      ensures unrecoverable >= old(unrecoverable) && nextStarved >= old(nextStarved)
      ensures nextOtherBad >= old(nextOtherBad) && parentBad >= old(parentBad)
      ensures parents == [] ==> !raised && children == [] && initialCalls == old(initialCalls)
      ensures parents != [] && server.browse(old(tick), parents).None? ==>
        !raised && children == [] && CountersAsBefore(old(Counters()))
      ensures (parents != [] && server.browse(old(tick), parents).Some? && !raised
               && FailuresAsBefore(old(Counters()))) ==>
        var truth := TrueChildren(server, parents[..|server.browse(old(tick), parents).value|]);
        children == if unread then truth else InformedAll(server, truth)
    {
      raised, children, unread := false, [], false;
      if parents == [] {
        return;
      }
      initialCalls := initialCalls + 1;
      var answer := server.browse(tick, parents);
      tick := tick + 1;
      if answer.None? {
        return;
      }
      raised, children, unread := TakeAnswer(parents, answer.value);
    }

    /** What a batch makes of the server's first answer. */
    method TakeAnswer(parents: seq<string>, pages: seq<BrowseResult>)
        returns (raised: bool, children: seq<BrowsedChild>, unread: bool)
      requires server.Lawful() && |pages| <= |parents|
      requires forall i :: 0 <= i < |pages| ==> server.FirstPage(parents[i], pages[i])
      modifies this`tick, this`nextCalls, this`nextStarved, this`nextOtherBad,
               this`initialStarved, this`recovered, this`unrecoverable, this`parentBad
      ensures recovered - old(recovered) + unrecoverable - old(unrecoverable) <= initialStarved - old(initialStarved)
      ensures !raised ==>
        recovered - old(recovered) + unrecoverable - old(unrecoverable) == initialStarved - old(initialStarved)
      ensures Within(server.ids, children)
      ensures unread ==> tick > 0 && server.readFails(tick - 1)
      ensures unrecoverable >= old(unrecoverable) && nextStarved >= old(nextStarved)
      ensures nextOtherBad >= old(nextOtherBad) && parentBad >= old(parentBad)
      ensures !raised && FailuresAsBefore(old(Counters())) ==>
        var truth := TrueChildren(server, parents[..|pages|]);
        children == if unread then truth else InformedAll(server, truth)
    {
      raised, children, unread := false, [], false;
      var results := new BrowseResult[|pages|](i requires 0 <= i < |pages| => pages[i]);
      raised := Complete(results, parents);
      if raised {
        return;
      }
      raised, children, unread := ReadChildren(parents, results);
      if raised {
        return;
      }
      CollectWithin(server, parents, results[..]);
      if FailuresAsBefore(old(Counters())) {
        AllGoodIsTrue(server, parents, results[..]);
      }
    }

    /** Drain all results, then browse the starved ones again. Unless a counter moved, each Good one is complete. */
    method Complete(results: array<BrowseResult>, nodes: seq<string>) returns (raised: bool)
      requires server.Lawful() && results.Length <= |nodes|
      requires forall i :: 0 <= i < results.Length ==> server.FirstPage(nodes[i], results[i])
      modifies this`tick, this`nextCalls, this`nextStarved, this`nextOtherBad,
               this`initialStarved, this`recovered, this`unrecoverable, results
      ensures nextStarved >= old(nextStarved) && nextOtherBad >= old(nextOtherBad)
          && unrecoverable >= old(unrecoverable)
      ensures recovered - old(recovered) + unrecoverable - old(unrecoverable) <= initialStarved - old(initialStarved)
      ensures !raised ==>
        recovered - old(recovered) + unrecoverable - old(unrecoverable) == initialStarved - old(initialStarved)
      ensures server.Known(results[..])
      ensures !raised && NextClean(old(nextStarved), old(nextOtherBad)) && unrecoverable == old(unrecoverable) ==>
        forall i :: 0 <= i < results.Length && results[i].status.Good? ==>
            results[i].references == server.refs(nodes[i])
    {
      raised := FollowContinuations(results, nodes);
      if raised {
        return;
      }
      raised := RetryStarved(results, nodes);
    }

    /** The end of a batch: the namespaces, the children, their metadata. Only reading the namespaces may raise. */
    method ReadChildren(parents: seq<string>, results: array<BrowseResult>)
      returns (raised: bool, children: seq<BrowsedChild>, unread: bool)
      requires results.Length <= |parents|
      modifies this`tick, this`parentBad
      ensures raised <==> server.readFails(old(tick))
      ensures raised ==> children == [] && !unread && parentBad == old(parentBad)
      ensures !raised ==> parentBad == old(parentBad) + BadParents(results[..])
      ensures unread ==> tick > 0 && server.readFails(tick - 1)
      ensures !raised ==>
        children == if unread then Collect(parents, results[..]) else InformedAll(server, Collect(parents, results[..]))
    {
      raised, children, unread := server.readFails(tick), [], false;
      tick := tick + 1;
      if raised {
        return;
      }
      children := CollectChildren(parents, results);
      children, unread := ReadMetadata(children);
    }
  }
}
