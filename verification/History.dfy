/** Recent samples per element (core/history.py) and the order of their timestamps. */
module History {
  import opened Neutral
  import opened Samples

  // ------------------------------------------------------------------ text order

  predicate TextBefore(a: string, b: string) {
    b != "" && (a == "" || a[0] < b[0] || (a[0] == b[0] && TextBefore(a[1..], b[1..])))
  }

  lemma {:induction false} TextBeforeTransitive(a: string, b: string, c: string)
    requires TextBefore(a, b) && TextBefore(b, c)
    ensures TextBefore(a, c)
  {
    if a != "" && a[0] == b[0] == c[0] {
      TextBeforeTransitive(a[1..], b[1..], c[1..]);
    }
  }

  lemma {:induction false} TextBeforeIrreflexive(a: string)
    ensures !TextBefore(a, a)
  {
    if a != "" {
      TextBeforeIrreflexive(a[1..]);
    }
  }

  /** One text is before another when it is a shorter beginning of it, or has the smaller character where they first
      differ. */
  lemma {:induction false} TextBeforeIff(a: string, b: string)
    ensures TextBefore(a, b) <==>
      exists k: nat :: k <= |a| && k < |b| && a[..k] == b[..k] && (k == |a| || a[k] < b[k])
  {
    if a != "" && b != "" && a[0] == b[0] {
      TextBeforeIff(a[1..], b[1..]);
      var c, d := a[1..], b[1..];
      if k: nat :| k <= |c| && k < |d| && c[..k] == d[..k] && (k == |c| || c[k] < d[k]) {
        assert a[..k + 1] == [a[0]] + c[..k] && b[..k + 1] == [b[0]] + d[..k];
        assert k + 1 <= |a| && k + 1 < |b| && a[..k + 1] == b[..k + 1] && (k + 1 == |a| || a[k + 1] < b[k + 1]);
      }
      if k: nat :| k <= |a| && k < |b| && a[..k] == b[..k] && (k == |a| || a[k] < b[k]) {
        assert k > 0;
        assert c[..k - 1] == a[..k][1..] && d[..k - 1] == b[..k][1..];
        assert k - 1 == |c| || c[k - 1] < d[k - 1];
      }
    } else if TextBefore(a, b) {
      assert a[..0] == b[..0];
    } else {
      assert forall k: nat :: 0 < k <= |a| && k < |b| && a[..k] == b[..k] ==> a[..k][0] == b[..k][0];
    }
  }

  // ------------------------------------------------------------------ rings

  /** The samples of `log` recorded for `elementId`, in order. */
  function Of(log: seq<ValueSample>, elementId: string): (own: seq<ValueSample>)
    ensures forall i :: 0 <= i < |own| ==> own[i].elementId == elementId
  {
    if log == [] then []
    else Of(log[..|log| - 1], elementId) + if log[|log| - 1].elementId == elementId then [log[|log| - 1]] else []
  }

  /** Whether `read` keeps a sample; one without a timestamp is in every window. */
  predicate InWindow(s: ValueSample, start: Option<string>, end: Option<string>) {
    && !(start.Some? && s.timestamp != "" && TextBefore(s.timestamp, start.value))
    && !(end.Some? && s.timestamp != "" && TextBefore(end.value, s.timestamp))
  }

  function Windowed(ring: seq<ValueSample>, start: Option<string>, end: Option<string>): (kept: seq<ValueSample>)
    ensures forall i :: 0 <= i < |kept| ==> kept[i] in ring && InWindow(kept[i], start, end)
    ensures forall i :: 0 <= i < |ring| && InWindow(ring[i], start, end) ==> ring[i] in kept
  {
    if ring == [] then []
    else if InWindow(ring[|ring| - 1], start, end) then Windowed(ring[..|ring| - 1], start, end) + [ring[|ring| - 1]]
    else Windowed(ring[..|ring| - 1], start, end)
  }

  class HistoryStore {
    const size: nat
    var rings: map<string, seq<ValueSample>>
    ghost var log: seq<ValueSample>

    /** Each element's ring is the last `size` samples appended for it. */
    ghost predicate Valid()
      reads this
    {
      && (forall e :: e in rings <==> Of(log, e) != [])
      && (forall e :: e in rings ==> rings[e] == LastN(Of(log, e), size))
    }

    constructor (ringSize: nat)
      ensures Valid() && log == [] && size == ringSize
    {
      size := ringSize;
      rings := map[];
      log := [];
    }

    method Append(sample: ValueSample)
      requires Valid()
      modifies this
      ensures Valid() && log == old(log) + [sample]
    {
      var e := sample.elementId;
      var ring := if e in rings then rings[e] else [];
      rings := rings[e := LastN(ring + [sample], size)];
      log := log + [sample];
      assert log[..|log| - 1] == old(log);
      assert forall k :: k != e ==> Of(log, k) == Of(old(log), k);
      KeepsLast(Of(old(log), e), size, sample);
    }

    /** The sample appended last for the element; None for a store that keeps nothing. */
    method Latest(elementId: string) returns (latest: Option<ValueSample>)
      requires Valid()
      ensures latest == LastKept(log, elementId, size)
    {
      if elementId !in rings || rings[elementId] == [] {
        return None;
      }
      return Some(rings[elementId][|rings[elementId]| - 1]);
    }

    method Read(elementId: string, start: Option<string>, end: Option<string>) returns (out: seq<ValueSample>)
      requires Valid()
      ensures out == Windowed(LastN(Of(log, elementId), size), start, end)
    {
      out := [];
      if elementId !in rings {
        return;
      }
      var ring := rings[elementId];
      for i := 0 to |ring|
        invariant out == Windowed(ring[..i], start, end)
      {
        assert ring[..i + 1][..i] == ring[..i];
        if start.Some? && ring[i].timestamp != "" && TextBefore(ring[i].timestamp, start.value) {
          continue;
        }
        if end.Some? && ring[i].timestamp != "" && TextBefore(end.value, ring[i].timestamp) {
          continue;
        }
        out := out + [ring[i]];
      }
      assert ring[..|ring|] == ring;
    }
  }

  ghost function LastKept(log: seq<ValueSample>, elementId: string, size: nat): Option<ValueSample> {
    var own := Of(log, elementId);
    if own == [] || size == 0 then None else Some(own[|own| - 1])
  }

  /** A bounded ring stays the last `n` of everything put into it. */
  lemma KeepsLast<T>(all: seq<T>, n: nat, x: T)
    ensures LastN(LastN(all, n) + [x], n) == LastN(all + [x], n)
  {
  }

  /** The entry at `k` is the last one recorded for the element. */
  ghost predicate IsLastFor(log: seq<ValueSample>, elementId: string, k: nat) {
    k < |log| && log[k].elementId == elementId && forall j :: k < j < |log| ==> log[j].elementId != elementId
  }

  lemma {:induction false} OfEndsWithLast(log: seq<ValueSample>, elementId: string)
    ensures Of(log, elementId) == [] ==> forall k :: 0 <= k < |log| ==> log[k].elementId != elementId
    ensures Of(log, elementId) != [] ==>
      exists k: nat :: IsLastFor(log, elementId, k) && log[k] == Of(log, elementId)[|Of(log, elementId)| - 1]
  {
    if log != [] {
      var front, last := log[..|log| - 1], log[|log| - 1];
      OfEndsWithLast(front, elementId);
      if last.elementId == elementId {
        assert IsLastFor(log, elementId, |log| - 1);
      } else if Of(front, elementId) != [] {
        var k: nat :| IsLastFor(front, elementId, k)
            && front[k] == Of(front, elementId)[|Of(front, elementId)| - 1];
        assert IsLastFor(log, elementId, k);
      }
    }
  }
}
