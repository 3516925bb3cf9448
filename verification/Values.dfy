/** Reading current values (api/routes/values.py). */
module Values {
  import opened Neutral
  import opened ElementIds
  import opened Registries
  import opened Json
  import opened Samples
  import opened History
  import opened Composition

  // ------------------------------------------------------------------ the upstream server

  /** One `read_values` call: the connection and the node ids asked for. */
  datatype Call = Call(connection: string, nodeIds: seq<string>)

  /** The upstream of one request: what each call would answer (None when it raises), and the calls made. */
  class Upstream {
    const answers: Call -> Option<seq<ValueSample>>
    var calls: seq<Call>

    constructor (answers: Call -> Option<seq<ValueSample>>)
      ensures this.answers == answers && calls == []
    {
      this.answers := answers;
      calls := [];
    }

    method ReadValues(connection: string, nodeIds: seq<string>) returns (raw: Option<seq<ValueSample>>)
      modifies this
      ensures raw == answers(Call(connection, nodeIds))
      ensures calls == old(calls) + [Call(connection, nodeIds)]
    {
      calls := calls + [Call(connection, nodeIds)];
      raw := answers(Call(connection, nodeIds));
    }
  }

  /** A call that answers gives one sample a node. */
  ghost predicate Lawful(upstream: Upstream) {
    forall call :: upstream.answers(call).Some? ==> |upstream.answers(call).value| == |call.nodeIds|
  }

  // ------------------------------------------------------------------ stale values

  predicate IsEmptyFailure(s: ValueSample) {
    s.quality == Bad && s.value == Null && s.timestamp == ""
  }

  /** What a leaf is served when the server gave nothing: its last recorded sample, marked Bad and dated now. */
  ghost function Stale(log: seq<ValueSample>, size: nat, leaf: string, now: string): ValueSample {
    match LastKept(log, leaf, size)
    case Some(last) => last.(quality := Bad, timestamp := now)
    case None => ValueSample(leaf, Null, Bad, now)
  }

  method FallBack(history: HistoryStore, leaf: string, now: string) returns (s: ValueSample)
    requires history.Valid()
    ensures s == Stale(history.log, history.size, leaf, now)
  {
    var latest := history.Latest(leaf);
    if latest.Some? {
      s := latest.value.(quality := Bad, timestamp := now);
    } else {
      s := ValueSample(leaf, Null, Bad, now);
    }
  }

  type Pair = (string, string)

  function NodeIds(pairs: seq<Pair>): seq<string> {
    seq(|pairs|, i requires 0 <= i < |pairs| => pairs[i].1)
  }

  /** The sample served for the `i`-th of `pairs`, given what the call answered. */
  ghost function Served(history: HistoryStore, raw: Option<seq<ValueSample>>, pairs: seq<Pair>, i: nat,
      now: string): ValueSample
    requires i < |pairs| && (raw.Some? ==> |raw.value| == |pairs|)
    reads history
  {
    if raw.Some? && !IsEmptyFailure(raw.value[i]) then raw.value[i]
    else Stale(history.log, history.size, pairs[i].0, now)
  }

  /** `_read_with_fallback`. */
  method ReadWithFallback(history: HistoryStore, upstream: Upstream, connection: string, pairs: seq<Pair>, now: string)
    returns (out: seq<ValueSample>)
    requires history.Valid() && Lawful(upstream)
    modifies upstream
    ensures upstream.calls == old(upstream.calls) + [Call(connection, NodeIds(pairs))]
    ensures |out| == |pairs|
    ensures forall i :: 0 <= i < |pairs| ==>
              out[i] == Served(history, upstream.answers(Call(connection, NodeIds(pairs))), pairs, i, now)
  {
    out := [];
    var raw := upstream.ReadValues(connection, NodeIds(pairs));
    assert |NodeIds(pairs)| == |pairs|;
    for i := 0 to |pairs|
      invariant |out| == i
      invariant upstream.calls == old(upstream.calls) + [Call(connection, NodeIds(pairs))]
      invariant forall k :: 0 <= k < i ==> out[k] == Served(history, raw, pairs, k, now)
    {
      var s: ValueSample;
      if raw.None? || IsEmptyFailure(raw.value[i]) {
        s := FallBack(history, pairs[i].0, now);
      } else {
        s := raw.value[i];
      }
      out := out + [s];
    }
  }

  /** A leaf gets what the call answered for it, unless the call raised or the answer is Bad without a value and a
      timestamp; then it gets the value recorded last for it, if the store keeps any, marked Bad and dated now. */
  lemma ServedShows(history: HistoryStore, raw: Option<seq<ValueSample>>, pairs: seq<Pair>, i: nat, now: string)
    requires i < |pairs| && (raw.Some? ==> |raw.value| == |pairs|)
    ensures var leaf, s := pairs[i].0, Served(history, raw, pairs, i, now);
      if raw.Some? && !(raw.value[i].quality == Bad && raw.value[i].value == Null && raw.value[i].timestamp == "")
      then s == raw.value[i]
      else
        && s.elementId == leaf && s.quality == Bad && s.timestamp == now
        && ((history.size == 0 || forall k :: 0 <= k < |history.log| ==> history.log[k].elementId != leaf) ==>
              s.value == Null)
        && (history.size > 0 ==>
              forall k: nat :: IsLastFor(history.log, leaf, k) ==> s.value == history.log[k].value)
  {
    OfEndsWithLast(history.log, pairs[i].0);
    var own := Of(history.log, pairs[i].0);
    if own != [] {
      assert own[|own| - 1].elementId == pairs[i].0;
      assert forall j, k :: IsLastFor(history.log, pairs[i].0, j) && IsLastFor(history.log, pairs[i].0, k) ==> j == k;
    }
  }

  // ------------------------------------------------------------------ quality

  function Rank(q: Quality): nat {
    match q
    case Good => 0
    case GoodNoData => 1
    case Bad => 2
  }

  /** The worst of the qualities; no component is no data. */
  function BestQuality(qualities: seq<Quality>): (worst: Quality)
    ensures qualities == [] ==> worst == GoodNoData
    ensures qualities != [] ==> worst in qualities && forall q :: q in qualities ==> Rank(q) <= Rank(worst)
  {
    if qualities == [] then GoodNoData
    else if exists i :: 0 <= i < |qualities| && qualities[i] == Bad then Bad
    else if exists i :: 0 <= i < |qualities| && qualities[i] == GoodNoData then GoodNoData
    else
      assert qualities[0].Good?;
      Good
  }

  // ------------------------------------------------------------------ phase 1: what to read

  datatype Category = AVariable | AComposition | Empty | Unknown

  function CategoryOf(snap: Snapshot, eid: string): Category {
    if eid !in snap.at then Unknown
    else if snap.at[eid].nodeClass.Variable? then AVariable
    else if snap.at[eid].isComposition then AComposition
    else Empty
  }

  /** The leaves read for one requested element. */
  function LeavesFor(snap: Snapshot, maxDepth: int, eid: string): seq<string>
    requires snap.Valid()
  {
    match CategoryOf(snap, eid)
    case AVariable => [eid]
    case AComposition => Leaves(snap, eid, maxDepth, {}).0
    case Empty => []
    case Unknown => if Parse(eid).Some? then [eid] else []
  }

  ghost predicate AskedLeaf(snap: Snapshot, maxDepth: int, eids: seq<string>, leaf: string)
    requires snap.Valid()
  {
    exists i :: 0 <= i < |eids| && leaf in LeavesFor(snap, maxDepth, eids[i])
  }

  /** Files the leaves of the known elements under them. */
  ghost predicate LeavesKnown(leavesBy: map<string, seq<string>>, eids: seq<string>, snap: Snapshot, maxDepth: int)
    requires snap.Valid()
  {
    && (forall e :: e in leavesBy ==> leavesBy[e] == LeavesFor(snap, maxDepth, e))
    && (forall i :: 0 <= i < |eids| && CategoryOf(snap, eids[i]) == AComposition ==> eids[i] in leavesBy)
  }

  method Classify(eids: seq<string>, snap: Snapshot, maxDepth: int)
    returns (categories: map<string, Category>, leavesBy: map<string, seq<string>>, all: set<string>)
    requires snap.Valid()
    ensures categories.Keys == ToSet(eids)
    ensures forall e :: e in categories ==> categories[e] == CategoryOf(snap, e)
    ensures LeavesKnown(leavesBy, eids, snap, maxDepth)
    ensures forall leaf :: leaf in all <==>
              exists k :: 0 <= k < |eids| && CategoryOf(snap, eids[k]) != Unknown
                  && leaf in LeavesFor(snap, maxDepth, eids[k])
  {
    categories, leavesBy, all := map[], map[], {};
    for i := 0 to |eids|
      invariant categories.Keys == ToSet(eids[..i])
      invariant forall e :: e in categories ==> categories[e] == CategoryOf(snap, e)
      invariant LeavesKnown(leavesBy, eids[..i], snap, maxDepth)
      invariant forall leaf :: leaf in all <==>
                  exists k :: 0 <= k < i && CategoryOf(snap, eids[k]) != Unknown
                      && leaf in LeavesFor(snap, maxDepth, eids[k])
    {
      var eid := eids[i];
      assert eids[..i + 1] == eids[..i] + [eid];
      if eid !in snap.at {
        categories := categories[eid := Unknown];
      } else if snap.at[eid].nodeClass.Variable? {
        categories := categories[eid := AVariable];
        leavesBy := leavesBy[eid := [eid]];
        all := all + {eid};
      } else if snap.at[eid].isComposition {
        categories := categories[eid := AComposition];
        var leaves, seen := LeafVariableIds(eid, snap, maxDepth, {});
        leavesBy := leavesBy[eid := leaves];
        all := all + ToSet(leaves);
      } else {
        categories := categories[eid := Empty];
      }
    }
    assert eids[..|eids|] == eids;
  }

  /** Unknown elements whose id parses are read as well. */
  method AddUnknown(eids: seq<string>, snap: Snapshot, maxDepth: int, categories: map<string, Category>,
                    known: set<string>, filed: map<string, seq<string>>)
    returns (leavesBy: map<string, seq<string>>, all: set<string>)
    requires snap.Valid() && categories.Keys == ToSet(eids) && LeavesKnown(filed, eids, snap, maxDepth)
    requires forall e :: e in categories ==> categories[e] == CategoryOf(snap, e)
    requires forall leaf :: leaf in known <==>
               exists k :: 0 <= k < |eids| && CategoryOf(snap, eids[k]) != Unknown
                   && leaf in LeavesFor(snap, maxDepth, eids[k])
    ensures LeavesKnown(leavesBy, eids, snap, maxDepth)
    ensures forall leaf :: leaf in all <==> AskedLeaf(snap, maxDepth, eids, leaf)
  {
    leavesBy, all := filed, known;
    var todo := categories.Keys;
    while todo != {}
      invariant todo <= categories.Keys && LeavesKnown(leavesBy, eids, snap, maxDepth)
      invariant forall leaf :: leaf in all <==>
          leaf in known || (leaf in categories.Keys - todo && categories[leaf] == Unknown && Parse(leaf).Some?)
      decreases |todo|
    {
      var eid :| eid in todo;
      todo := todo - {eid};
      if categories[eid] == Unknown && Parse(eid).Some? {
        all := all + {eid};
        leavesBy := leavesBy[eid := [eid]];
      }
    }
    forall leaf ensures leaf in all <==> AskedLeaf(snap, maxDepth, eids, leaf) {
      if leaf in all && leaf !in known {
        var k :| 0 <= k < |eids| && eids[k] == leaf;
        assert leaf in LeavesFor(snap, maxDepth, eids[k]);
      }
    }
  }

  // ------------------------------------------------------------------ phase 2: one batch a connection

  datatype Batch = Batch(connection: string, pairs: seq<Pair>)

  /** Distinct pairs of a leaf of `all` and its node id, all on `connection`. */
  ghost predicate RightPairs(connection: string, pairs: seq<Pair>, all: set<string>) {
    && NoRepeats(pairs)
    && forall i :: 0 <= i < |pairs| ==>
        pairs[i].0 in all && Parse(pairs[i].0) == Some(ElementRef(connection, pairs[i].1))
  }

  /** `byConn` holds the pairs of the leaves of `all` whose id parses, under their connections. */
  ghost predicate Grouped(byConn: map<string, seq<Pair>>, all: set<string>) {
    && (forall c :: c in byConn ==> RightPairs(c, byConn[c], all))
    && (forall leaf :: leaf in all && Parse(leaf).Some? ==> InGroup(byConn, leaf, Parse(leaf).value))
  }

  ghost predicate InGroup(byConn: map<string, seq<Pair>>, leaf: string, ref: ElementRef) {
    ref.connection in byConn && (leaf, ref.nodeId) in byConn[ref.connection]
  }

  lemma PairAdded(byConn: map<string, seq<Pair>>, all: set<string>, leaf: string, ref: ElementRef)
    requires Grouped(byConn, all) && leaf !in all && Parse(leaf) == Some(ref)
    ensures Grouped(byConn[ref.connection := (if ref.connection in byConn then byConn[ref.connection] else [])
        + [(leaf, ref.nodeId)]], all + {leaf})
  {
    var pairs := if ref.connection in byConn then byConn[ref.connection] else [];
    assert forall i :: 0 <= i < |pairs| ==> pairs[i].0 != leaf;
    assert RightPairs(ref.connection, pairs + [(leaf, ref.nodeId)], all + {leaf});
    var after := byConn[ref.connection := pairs + [(leaf, ref.nodeId)]];
    forall x | x in all && Parse(x).Some? ensures InGroup(after, x, Parse(x).value) {
      assert InGroup(byConn, x, Parse(x).value);
    }
  }

  method Group(all: set<string>) returns (byConn: map<string, seq<Pair>>)
    ensures Grouped(byConn, all)
  {
    byConn := map[];
    var todo := all;
    while todo != {}
      invariant todo <= all && Grouped(byConn, all - todo)
      decreases |todo|
    {
      var leaf :| leaf in todo;
      assert all - (todo - {leaf}) == (all - todo) + {leaf};
      todo := todo - {leaf};
      if Parse(leaf).Some? {
        var ref := Parse(leaf).value;
        PairAdded(byConn, all - todo - {leaf}, leaf, ref);
        var pairs := if ref.connection in byConn then byConn[ref.connection] else [];
        byConn := byConn[ref.connection := pairs + [(leaf, ref.nodeId)]];
      }
    }
    assert all - todo == all;
  }

  function CallOf(batch: Batch): Call {
    Call(batch.connection, NodeIds(batch.pairs))
  }

  ghost function CallsOf(batches: seq<Batch>): seq<Call> {
    seq(|batches|, i requires 0 <= i < |batches| => CallOf(batches[i]))
  }

  /** No connection is called twice, no leaf is asked for twice, and exactly the leaves of `all` are asked for. */
  ghost predicate EachOnce(batches: seq<Batch>, all: set<string>) {
    && (forall i, j :: 0 <= i < j < |batches| ==> batches[i].connection != batches[j].connection)
    && (forall i :: 0 <= i < |batches| ==> RightPairs(batches[i].connection, batches[i].pairs, all))
    && (forall leaf :: leaf in all && Parse(leaf).Some? ==> exists i, k :: AsksFor(batches, i, k, leaf))
  }

  ghost predicate AsksFor(batches: seq<Batch>, i: int, k: int, leaf: string) {
    0 <= i < |batches| && 0 <= k < |batches[i].pairs| && batches[i].pairs[k].0 == leaf
  }

  /** The leaf has one place in the batches. */
  lemma AskedOnce(batches: seq<Batch>, all: set<string>, leaf: string, i: int, k: int, i': int, k': int)
    requires EachOnce(batches, all) && AsksFor(batches, i, k, leaf) && AsksFor(batches, i', k', leaf)
    ensures i == i' && k == k'
  {
    assert Parse(leaf) == Some(ElementRef(batches[i].connection, batches[i].pairs[k].1));
    assert Parse(leaf) == Some(ElementRef(batches[i'].connection, batches[i'].pairs[k'].1));
  }

  /** Every leaf asked for has the sample served for its place in its batch. */
  ghost predicate AllServed(samples: map<string, ValueSample>, batches: seq<Batch>, upstream: Upstream,
      history: HistoryStore, now: string)
    requires Lawful(upstream)
    reads history
  {
    forall i, k {:trigger batches[i].pairs[k]} :: 0 <= i < |batches| && 0 <= k < |batches[i].pairs| ==>
      && batches[i].pairs[k].0 in samples
      && samples[batches[i].pairs[k].0] == Served(history, upstream.answers(CallOf(batches[i])), batches[i].pairs, k,
          now)
  }

  /** The leaves asked for are those with a sample. */
  ghost predicate AskedAre(asked: set<string>, batches: seq<Batch>) {
    forall leaf :: leaf in asked <==> exists i, k :: AsksFor(batches, i, k, leaf)
  }

  /** Each call asks, on one connection, for the nodes of its leaves, in the order of its pairs. */
  lemma CallsAskForNodes(batches: seq<Batch>, all: set<string>, i: nat, k: nat)
    requires EachOnce(batches, all) && i < |batches| && k < |batches[i].pairs|
    ensures |CallsOf(batches)| == |batches| && |CallsOf(batches)[i].nodeIds| == |batches[i].pairs|
    ensures batches[i].pairs[k].0 in all
    ensures Parse(batches[i].pairs[k].0)
         == Some(ElementRef(CallsOf(batches)[i].connection, CallsOf(batches)[i].nodeIds[k]))
  {
    assert RightPairs(batches[i].connection, batches[i].pairs, all);
  }

  lemma PairsDiffer(connection: string, pairs: seq<Pair>, all: set<string>)
    requires RightPairs(connection, pairs, all)
    ensures forall i, j :: 0 <= i < j < |pairs| ==> pairs[i].0 != pairs[j].0
  {
  }

  ghost predicate Elsewhere(leaf: string, connection: string) {
    Parse(leaf).Some? && Parse(leaf).value.connection != connection
  }

  /** `filed` adds the samples `got` for the first `n` of `pairs`. */
  ghost predicate Files(filed: map<string, ValueSample>, samples: map<string, ValueSample>, connection: string,
                        pairs: seq<Pair>, got: seq<ValueSample>, n: nat) {
    && n <= |pairs| == |got|
    && (forall leaf :: leaf in samples ==> leaf in filed)
    && (forall leaf :: leaf in filed && leaf !in samples ==> exists k :: 0 <= k < n && pairs[k].0 == leaf)
    && (forall k :: 0 <= k < n ==> pairs[k].0 in filed && filed[pairs[k].0] == got[k])
    && (forall leaf :: leaf in samples && Elsewhere(leaf, connection) ==> filed[leaf] == samples[leaf])
  }

  lemma FilesOneMore(filed: map<string, ValueSample>, samples: map<string, ValueSample>, connection: string,
                     pairs: seq<Pair>, got: seq<ValueSample>, n: nat)
    requires Files(filed, samples, connection, pairs, got, n) && n < |pairs|
    requires forall i :: 0 <= i < n ==> pairs[i].0 != pairs[n].0
    requires Parse(pairs[n].0) == Some(ElementRef(connection, pairs[n].1))
    ensures Files(filed[pairs[n].0 := got[n]], samples, connection, pairs, got, n + 1)
  {
  }

  method FileSamples(samples: map<string, ValueSample>, connection: string, pairs: seq<Pair>, got: seq<ValueSample>,
      ghost all: set<string>)
    returns (filed: map<string, ValueSample>)
    requires RightPairs(connection, pairs, all) && |got| == |pairs|
    ensures Files(filed, samples, connection, pairs, got, |pairs|)
  {
    PairsDiffer(connection, pairs, all);
    filed := samples;
    for i := 0 to |pairs|
      invariant Files(filed, samples, connection, pairs, got, i)
    {
      FilesOneMore(filed, samples, connection, pairs, got, i);
      filed := filed[pairs[i].0 := got[i]];
    }
  }

  lemma AskedAdded(samples: map<string, ValueSample>, filed: map<string, ValueSample>, batches: seq<Batch>,
                   batch: Batch, got: seq<ValueSample>)
    requires AskedAre(samples.Keys, batches)
    requires Files(filed, samples, batch.connection, batch.pairs, got, |batch.pairs|)
    ensures AskedAre(filed.Keys, batches + [batch])
  {
    var more := batches + [batch];
    assert forall leaf, i, k :: AsksFor(more, i, k, leaf) ==>
        AsksFor(batches, i, k, leaf) || (i == |batches| && batch.pairs[k].0 == leaf);
    forall leaf ensures leaf in filed.Keys <==> exists i, k :: AsksFor(more, i, k, leaf) {
      if leaf in samples {
        var i, k :| AsksFor(batches, i, k, leaf);
        assert AsksFor(more, i, k, leaf);
      } else if leaf in filed {
        var k :| 0 <= k < |batch.pairs| && batch.pairs[k].0 == leaf;
        assert AsksFor(more, |batches|, k, leaf);
      }
    }
  }

  lemma BatchAdded(samples: map<string, ValueSample>, filed: map<string, ValueSample>, batches: seq<Batch>,
                   batch: Batch, got: seq<ValueSample>, upstream: Upstream, history: HistoryStore, now: string,
                   all: set<string>)
    requires Lawful(upstream) && AskedAre(samples.Keys, batches) && AllServed(samples, batches, upstream, history, now)
    requires RightPairs(batch.connection, batch.pairs, all)
    requires forall i :: 0 <= i < |batches| ==>
        batches[i].connection != batch.connection && RightPairs(batches[i].connection, batches[i].pairs, all)
    requires Files(filed, samples, batch.connection, batch.pairs, got, |batch.pairs|)
    requires forall k :: 0 <= k < |got| ==>
        got[k] == Served(history, upstream.answers(CallOf(batch)), batch.pairs, k, now)
    ensures AskedAre(filed.Keys, batches + [batch])
    ensures AllServed(filed, batches + [batch], upstream, history, now)
  {
    AskedAdded(samples, filed, batches, batch, got);
    var more := batches + [batch];
    forall i, k {:trigger more[i].pairs[k]} | 0 <= i < |more| && 0 <= k < |more[i].pairs|
      ensures more[i].pairs[k].0 in filed
      ensures filed[more[i].pairs[k].0] == Served(history, upstream.answers(CallOf(more[i])), more[i].pairs, k, now)
    {
      assert i < |batches| ==> more[i] == batches[i] && batches[i].pairs[k].0 in samples;
    }
  }

  method Fetch(byConn: map<string, seq<Pair>>, history: HistoryStore, upstream: Upstream, now: string,
      ghost all: set<string>)
    returns (samples: map<string, ValueSample>, ghost batches: seq<Batch>)
    requires history.Valid() && Lawful(upstream)
    requires forall c :: c in byConn ==> RightPairs(c, byConn[c], all)
    modifies upstream
    ensures upstream.calls == old(upstream.calls) + CallsOf(batches)
    ensures forall i, j :: 0 <= i < j < |batches| ==> batches[i].connection != batches[j].connection
    ensures forall i :: 0 <= i < |batches| ==>
        batches[i].connection in byConn && batches[i].pairs == byConn[batches[i].connection]
    ensures forall c :: c in byConn ==> Batch(c, byConn[c]) in batches
    ensures AskedAre(samples.Keys, batches) && AllServed(samples, batches, upstream, history, now)
  {
    samples, batches := map[], [];
    var todo := byConn.Keys;
    while todo != {}
      invariant todo <= byConn.Keys
      invariant upstream.calls == old(upstream.calls) + CallsOf(batches)
      invariant forall i, j :: 0 <= i < j < |batches| ==> batches[i].connection != batches[j].connection
      invariant forall i :: 0 <= i < |batches| ==>
                  batches[i].connection in byConn.Keys - todo && batches[i].pairs == byConn[batches[i].connection]
      invariant forall c :: c in byConn.Keys - todo ==> Batch(c, byConn[c]) in batches
      invariant AskedAre(samples.Keys, batches) && AllServed(samples, batches, upstream, history, now)
      decreases |todo|
    {
      var connection :| connection in todo;
      todo := todo - {connection};
      var pairs := byConn[connection];
      var got := ReadWithFallback(history, upstream, connection, pairs, now);
      var filed := FileSamples(samples, connection, pairs, got, all);
      BatchAdded(samples, filed, batches, Batch(connection, pairs), got, upstream, history, now, all);
      samples, batches := filed, batches + [Batch(connection, pairs)];
    }
  }

  // ------------------------------------------------------------------ phase 3: the answers

  datatype Vqt = Vqt(value: Json, quality: Quality, timestamp: string)

  datatype Outcome =
    | NotFound
    | Current(vqt: Vqt)
    | NoValue(at: string)
    | RolledUp(components: map<string, Vqt>, quality: Quality, timestamp: string)

  datatype Answer = Answer(elementId: string, outcome: Outcome)

  /** The stripped value of a sample, its quality and its timestamp. */
  ghost predicate Shows(vqt: Vqt, s: ValueSample) {
    vqt.value == Strip(s.value) && vqt.quality == s.quality && vqt.timestamp == s.timestamp
  }

  function VqtOf(s: ValueSample): Vqt {
    Vqt(Strip(s.value), s.quality, s.timestamp)
  }

  /** A composition shows its known leaves that have a sample, the worst of their qualities and the latest of
      their timestamps, or the time of the request when none has one. */
  ghost predicate RollsUp(o: Outcome, leaves: seq<string>, snap: Snapshot, samples: map<string, ValueSample>,
      now: string) {
    && o.RolledUp?
    && (forall leaf :: leaf in o.components <==> leaf in leaves && leaf in samples && leaf in snap.at)
    && (forall leaf :: leaf in o.components ==> Shows(o.components[leaf], samples[leaf]))
    && IsWorst(o.quality, o.components)
    && IsLatest(o.timestamp, o.components, now)
  }

  ghost predicate IsWorst(q: Quality, components: map<string, Vqt>) {
    if components.Keys == {} then q == GoodNoData
    else
      && (exists leaf :: leaf in components && components[leaf].quality == q)
      && forall leaf :: leaf in components ==> Rank(components[leaf].quality) <= Rank(q)
  }

  ghost predicate IsLatest(t: string, components: map<string, Vqt>, now: string) {
    if forall leaf :: leaf in components ==> components[leaf].timestamp == "" then t == now
    else
      && (exists leaf :: leaf in components && components[leaf].timestamp == t)
      && forall leaf :: leaf in components ==> !TextBefore(t, components[leaf].timestamp)
  }

  ghost predicate LatestSoFar(latest: string, components: map<string, Vqt>) {
    && (forall leaf :: leaf in components ==> !TextBefore(latest, components[leaf].timestamp))
    && (latest != "" ==> exists leaf :: leaf in components && components[leaf].timestamp == latest)
  }

  ghost predicate QualitiesOf(qualities: seq<Quality>, components: map<string, Vqt>) {
    && (forall leaf :: leaf in components ==> components[leaf].quality in qualities)
    && (forall q :: q in qualities ==> exists leaf :: leaf in components && components[leaf].quality == q)
  }

  function Later(latest: string, ts: string): string {
    if ts != "" && TextBefore(latest, ts) then ts else latest
  }

  /** A component that is filed, or filed again with the same content, keeps the running results right. */
  lemma ComponentAdded(components: map<string, Vqt>, leaf: string, vqt: Vqt, qualities: seq<Quality>, latest: string)
    requires QualitiesOf(qualities, components) && LatestSoFar(latest, components)
    requires leaf in components ==> components[leaf] == vqt
    ensures QualitiesOf(qualities + [vqt.quality], components[leaf := vqt])
    ensures LatestSoFar(Later(latest, vqt.timestamp), components[leaf := vqt])
  {
    var more, after := components[leaf := vqt], Later(latest, vqt.timestamp);
    assert forall k :: k in components ==> k in more && more[k] == components[k];
    assert more[leaf] == vqt;
    TextBeforeIrreflexive(vqt.timestamp);
    forall k | k in more ensures !TextBefore(after, more[k].timestamp) {
      if k in components && after != latest && TextBefore(after, more[k].timestamp) {
        TextBeforeTransitive(latest, after, more[k].timestamp);
      }
    }
  }

  method Compose(leaves: seq<string>, snap: Snapshot, samples: map<string, ValueSample>, now: string)
      returns (o: Outcome)
    ensures RollsUp(o, leaves, snap, samples, now)
  {
    var components: map<string, Vqt> := map[];
    var latest := "";
    var qualities: seq<Quality> := [];
    for i := 0 to |leaves|
      invariant forall leaf :: leaf in components <==> leaf in leaves[..i] && leaf in samples && leaf in snap.at
      invariant forall leaf :: leaf in components ==> components[leaf] == VqtOf(samples[leaf])
      invariant QualitiesOf(qualities, components)
      invariant LatestSoFar(latest, components)
    {
      assert leaves[..i + 1] == leaves[..i] + [leaves[i]];
      if leaves[i] !in samples || leaves[i] !in snap.at {
        continue;
      }
      var sample := samples[leaves[i]];
      ComponentAdded(components, leaves[i], VqtOf(sample), qualities, latest);
      components := components[leaves[i] := VqtOf(sample)];
      qualities := qualities + [sample.quality];
      if sample.timestamp != "" && TextBefore(latest, sample.timestamp) {
        latest := sample.timestamp;
      }
    }
    assert leaves[..|leaves|] == leaves;
    o := RolledUp(components, BestQuality(qualities), if latest != "" then latest else now);
  }

  /** What each requested element is answered. */
  ghost predicate Answered(o: Outcome, eid: string, snap: Snapshot, maxDepth: int, samples: map<string, ValueSample>,
      now: string)
    requires snap.Valid()
  {
    match CategoryOf(snap, eid)
    case Unknown =>
      if Parse(eid).None? then o == NotFound else eid in samples && o.Current? && Shows(o.vqt, samples[eid])
    case AVariable => eid in samples && o.Current? && Shows(o.vqt, samples[eid])
    case Empty => o == NoValue(now)
    case AComposition => RollsUp(o, LeavesFor(snap, maxDepth, eid), snap, samples, now)
  }

  lemma BatchesCover(byConn: map<string, seq<Pair>>, batches: seq<Batch>, all: set<string>)
    requires forall c :: c in byConn ==> Batch(c, byConn[c]) in batches
    requires forall i, j :: 0 <= i < j < |batches| ==> batches[i].connection != batches[j].connection
    requires forall i :: 0 <= i < |batches| ==>
        batches[i].connection in byConn && batches[i].pairs == byConn[batches[i].connection]
    requires Grouped(byConn, all)
    ensures EachOnce(batches, all)
  {
    forall leaf | leaf in all && Parse(leaf).Some? ensures exists i, k :: AsksFor(batches, i, k, leaf) {
      var c := Parse(leaf).value.connection;
      assert InGroup(byConn, leaf, Parse(leaf).value);
      var i :| 0 <= i < |batches| && batches[i] == Batch(c, byConn[c]);
      var k :| 0 <= k < |byConn[c]| && byConn[c][k] == (leaf, Parse(leaf).value.nodeId);
      assert AsksFor(batches, i, k, leaf);
    }
  }

  /** A Variable has a sample; an unknown element has one exactly when its id parses. */
  ghost predicate HasSample(snap: Snapshot, eid: string, samples: map<string, ValueSample>) {
    && (CategoryOf(snap, eid) == AVariable ==> eid in samples)
    && (CategoryOf(snap, eid) == Unknown ==> (eid in samples <==> Parse(eid).Some?))
  }

  lemma SamplesCover(snap: Snapshot, maxDepth: int, eids: seq<string>, all: set<string>, batches: seq<Batch>,
      samples: map<string, ValueSample>)
    requires snap.Valid() && forall k :: k in snap.at ==> Parse(k).Some?
    requires forall leaf :: leaf in all <==> AskedLeaf(snap, maxDepth, eids, leaf)
    requires EachOnce(batches, all) && AskedAre(samples.Keys, batches)
    ensures forall leaf :: leaf in samples <==> leaf in all && Parse(leaf).Some?
    ensures forall i :: 0 <= i < |eids| ==> HasSample(snap, eids[i], samples)
  {
    forall leaf ensures leaf in samples <==> leaf in all && Parse(leaf).Some? {
      if leaf in samples {
        var i, k :| AsksFor(batches, i, k, leaf);
        assert RightPairs(batches[i].connection, batches[i].pairs, all);
      }
    }
    forall i | 0 <= i < |eids| ensures HasSample(snap, eids[i], samples) {
      if CategoryOf(snap, eids[i]) == AVariable {
        assert eids[i] in LeavesFor(snap, maxDepth, eids[i]);
      }
      if CategoryOf(snap, eids[i]) == Unknown && Parse(eids[i]).Some? {
        assert eids[i] in LeavesFor(snap, maxDepth, eids[i]);
      }
    }
  }

  method Assemble(eids: seq<string>, maxDepth: int, snap: Snapshot, categories: map<string, Category>,
                  leavesBy: map<string, seq<string>>, samples: map<string, ValueSample>, now: string)
    returns (results: seq<Answer>)
    requires snap.Valid()
    requires forall i :: 0 <= i < |eids| ==>
        HasSample(snap, eids[i], samples) && eids[i] in categories && categories[eids[i]] == CategoryOf(snap, eids[i])
    requires forall i :: 0 <= i < |eids| && CategoryOf(snap, eids[i]) == AComposition ==>
               eids[i] in leavesBy && leavesBy[eids[i]] == LeavesFor(snap, maxDepth, eids[i])
    ensures |results| == |eids|
    ensures forall i :: 0 <= i < |eids| ==>
              results[i].elementId == eids[i] && Answered(results[i].outcome, eids[i], snap, maxDepth, samples, now)
  {
    results := [];
    for i := 0 to |eids|
      invariant |results| == i
      invariant forall k :: 0 <= k < i ==>
                  results[k].elementId == eids[k] && Answered(results[k].outcome, eids[k], snap, maxDepth, samples, now)
    {
      var eid := eids[i];
      assert HasSample(snap, eid, samples);
      var outcome: Outcome;
      match categories[eid] {
        case Unknown => outcome := if eid in samples then Current(VqtOf(samples[eid])) else NotFound;
        case AVariable => outcome := Current(VqtOf(samples[eid]));
        case Empty => outcome := NoValue(now);
        case AComposition => outcome := Compose(leavesBy[eid], snap, samples, now);
      }
      results := results + [Answer(eid, outcome)];
    }
  }

  /** The second phase: one call a connection, each leaf in one of them. */
  method FetchAll(all: set<string>, history: HistoryStore, upstream: Upstream, now: string)
    returns (samples: map<string, ValueSample>, ghost batches: seq<Batch>)
    requires history.Valid() && Lawful(upstream)
    modifies upstream
    ensures EachOnce(batches, all) && upstream.calls == old(upstream.calls) + CallsOf(batches)
    ensures AskedAre(samples.Keys, batches) && AllServed(samples, batches, upstream, history, now)
  {
    var byConn := Group(all);
    samples, batches := Fetch(byConn, history, upstream, now, all);
    BatchesCover(byConn, batches, all);
  }

  /** `read_values`: every id is answered in its place; `samples` are those served for the batches sent. */
  method ReadValues(eids: seq<string>, maxDepth: int, snap: Snapshot, history: HistoryStore, upstream: Upstream,
      now: string)
    returns (results: seq<Answer>, ghost samples: map<string, ValueSample>, ghost batches: seq<Batch>,
        ghost wanted: set<string>)
    requires snap.Valid() && history.Valid() && Lawful(upstream)
    requires forall k :: k in snap.at ==> Parse(k).Some?
    modifies upstream
    ensures forall leaf :: leaf in wanted <==> AskedLeaf(snap, maxDepth, eids, leaf)
    ensures EachOnce(batches, wanted) && upstream.calls == old(upstream.calls) + CallsOf(batches)
    ensures AskedAre(samples.Keys, batches) && AllServed(samples, batches, upstream, history, now)
    ensures |results| == |eids|
    ensures forall i :: 0 <= i < |eids| ==>
              results[i].elementId == eids[i] && Answered(results[i].outcome, eids[i], snap, maxDepth, samples, now)
  {
    var categories, leavesBy, all := Classify(eids, snap, maxDepth);
    leavesBy, all := AddUnknown(eids, snap, maxDepth, categories, all, leavesBy);
    wanted := all;
    var leafSamples;
    leafSamples, batches := FetchAll(all, history, upstream, now);
    samples := leafSamples;
    SamplesCover(snap, maxDepth, eids, all, batches, samples);
    assert forall i :: 0 <= i < |eids| ==> eids[i] in ToSet(eids);
    results := Assemble(eids, maxDepth, snap, categories, leavesBy, leafSamples, now);
  }

  // ------------------------------------------------------------------ what a request comes to

  /** No known element but a Variable is asked for upstream. */
  lemma ObjectsAreNotRead(snap: Snapshot, maxDepth: int, eids: seq<string>, leaf: string)
    requires Keyed(snap) && AskedLeaf(snap, maxDepth, eids, leaf) && leaf in snap.at
    ensures IsVariable(snap, leaf)
  {
    var i :| 0 <= i < |eids| && leaf in LeavesFor(snap, maxDepth, eids[i]);
    if CategoryOf(snap, eids[i]) == AComposition {
      LeavesExact(snap, eids[i], maxDepth);
    }
  }

  /** The Variables that make up the value of a composition. */
  ghost predicate IsComponent(snap: Snapshot, eid: string, maxDepth: int, leaf: string) {
    && leaf in snap.at && snap.at[leaf].nodeClass.Variable?
    && exists chain :: IsChain(snap, chain, leaf, eid) && (maxDepth > 0 ==> |chain| - 1 <= maxDepth)
  }

  /** A requested composition is answered with exactly the Variables up to `maxDepth` levels below it, each as
      it was served, and with the worst quality among them. */
  lemma CompositionIsComplete(snap: Snapshot, maxDepth: int, eids: seq<string>, i: nat, o: Outcome,
                              samples: map<string, ValueSample>, batches: seq<Batch>, wanted: set<string>, now: string)
    requires Keyed(snap) && forall k :: k in snap.at ==> Parse(k).Some?
    requires forall leaf :: leaf in wanted <==> AskedLeaf(snap, maxDepth, eids, leaf)
    requires EachOnce(batches, wanted) && AskedAre(samples.Keys, batches)
    requires i < |eids| && IsComposition(snap, eids[i]) && Answered(o, eids[i], snap, maxDepth, samples, now)
    ensures ShowsComponents(o, snap, eids[i], maxDepth, samples)
    ensures o.quality == Bad <==> exists leaf :: leaf in o.components && samples[leaf].quality == Bad
  {
    SamplesCover(snap, maxDepth, eids, wanted, batches, samples);
    LeavesAreSampled(snap, maxDepth, eids, i, samples, wanted);
    RollUpIsComplete(o, snap, eids[i], maxDepth, LeavesFor(snap, maxDepth, eids[i]), samples, now);
  }

  /** The leaves of a composition are its components, and each has been served. */
  lemma LeavesAreSampled(snap: Snapshot, maxDepth: int, eids: seq<string>, i: nat, samples: map<string, ValueSample>,
      wanted: set<string>)
    requires Keyed(snap) && (forall k :: k in snap.at ==> Parse(k).Some?) && i < |eids| && IsComposition(snap, eids[i])
    requires forall leaf :: leaf in wanted <==> AskedLeaf(snap, maxDepth, eids, leaf)
    requires forall leaf :: leaf in samples <==> leaf in wanted && Parse(leaf).Some?
    ensures forall leaf :: leaf in LeavesFor(snap, maxDepth, eids[i]) <==> IsComponent(snap, eids[i], maxDepth, leaf)
    ensures forall leaf :: leaf in LeavesFor(snap, maxDepth, eids[i]) ==> leaf in samples && leaf in snap.at
  {
    forall leaf ensures leaf in LeavesFor(snap, maxDepth, eids[i]) <==> IsComponent(snap, eids[i], maxDepth, leaf) {
      LeafIsComponent(snap, eids[i], maxDepth, leaf);
    }
    forall leaf | leaf in LeavesFor(snap, maxDepth, eids[i]) ensures leaf in samples && leaf in snap.at {
      assert AskedLeaf(snap, maxDepth, eids, leaf);
    }
  }

  lemma RollUpIsComplete(o: Outcome, snap: Snapshot, eid: string, maxDepth: int, leaves: seq<string>,
      samples: map<string, ValueSample>, now: string)
    requires RollsUp(o, leaves, snap, samples, now)
    requires forall leaf :: leaf in leaves <==> IsComponent(snap, eid, maxDepth, leaf)
    requires forall leaf :: leaf in leaves ==> leaf in samples && leaf in snap.at
    ensures ShowsComponents(o, snap, eid, maxDepth, samples)
    ensures o.quality == Bad <==> exists leaf :: leaf in o.components && samples[leaf].quality == Bad
  {
  }

  /** The answer holds the components and nothing else, each as served and none worse than the whole. */
  ghost predicate ShowsComponents(o: Outcome, snap: Snapshot, eid: string, maxDepth: int,
      samples: map<string, ValueSample>) {
    && o.RolledUp?
    && (forall leaf :: leaf in o.components <==> IsComponent(snap, eid, maxDepth, leaf))
    && (forall leaf :: leaf in o.components ==>
          leaf in samples && Shows(o.components[leaf], samples[leaf])
              && Rank(samples[leaf].quality) <= Rank(o.quality))
  }

  lemma LeafIsComponent(snap: Snapshot, eid: string, maxDepth: int, leaf: string)
    requires Keyed(snap) && IsComposition(snap, eid)
    ensures leaf in LeavesFor(snap, maxDepth, eid) <==> IsComponent(snap, eid, maxDepth, leaf)
  {
    LeavesByChain(snap, eid, maxDepth, leaf);
    assert LeavesFor(snap, maxDepth, eid) == Leaves(snap, eid, maxDepth, {}).0;
  }
}
