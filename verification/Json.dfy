/** JSON values, and stripping the Variant envelope off them (core/mapping.py). */
module Json {
  import opened Neutral

  /** A number that is no integer is a real; the special floats travel as text. */
  datatype Json =
    | Null
    | Bool(b: bool)
    | Int(i: int)
    | Real(r: real)
    | Str(s: string)
    | Arr(items: seq<Json>)
    | Obj(fields: map<string, Json>)

  predicate IsEnvelope(j: Json) {
    j.Obj? && "Type" in j.fields && "Body" in j.fields
  }

  function Strip(j: Json): Json {
    if IsEnvelope(j) then
      var body := j.fields["Body"];
      if body.Arr? then Arr(StripAll(body.items)) else body
    else if j.Arr? then Arr(StripAll(j.items))
    else j
  }

  function StripAll(items: seq<Json>): (stripped: seq<Json>)
    ensures |stripped| == |items|
  {
    if items == [] then [] else [Strip(items[0])] + StripAll(items[1..])
  }

  lemma {:induction false} StripAllAt(items: seq<Json>, k: nat)
    requires k < |items|
    ensures StripAll(items)[k] == Strip(items[k])
  {
    if k > 0 {
      StripAllAt(items[1..], k - 1);
    }
  }

  /** Stripping an object with a type and a body leaves the body; a list, bare or as a body, keeps its length and has
      each element stripped; anything else stays as it is. */
  lemma StripShows(j: Json)
    ensures j.Obj? && "Type" in j.fields && "Body" in j.fields && !j.fields["Body"].Arr? ==>
              Strip(j) == j.fields["Body"]
    ensures var list := if j.Obj? && "Type" in j.fields && "Body" in j.fields then j.fields["Body"] else j;
      list.Arr? ==>
        && Strip(j).Arr? && |Strip(j).items| == |list.items|
        && forall k :: 0 <= k < |list.items| ==> Strip(j).items[k] == Strip(list.items[k])
    ensures !j.Arr? && !(j.Obj? && "Type" in j.fields && "Body" in j.fields) ==> Strip(j) == j
  {
    var list := if j.Obj? && "Type" in j.fields && "Body" in j.fields then j.fields["Body"] else j;
    if list.Arr? {
      forall k | 0 <= k < |list.items| ensures Strip(j).items[k] == Strip(list.items[k]) {
        StripAllAt(list.items, k);
      }
    }
  }

  /** No envelope here, nor anywhere in the lists this value is made of. */
  predicate Naked(j: Json) {
    !IsEnvelope(j) && (j.Arr? ==> AllNaked(j.items))
  }

  predicate AllNaked(items: seq<Json>) {
    items == [] || (Naked(items[0]) && AllNaked(items[1..]))
  }

  /** Stripping leaves a value alone exactly when there is nothing left to strip. */
  lemma {:induction false} StripFixedIffNaked(j: Json)
    ensures Strip(j) == j <==> Naked(j)
    decreases j, 0
  {
    if j.Arr? {
      StripAllFixedIffNaked(j.items);
    } else if IsEnvelope(j) {
      assert j.fields["Body"] < j;
    }
  }

  lemma {:induction false} StripAllFixedIffNaked(items: seq<Json>)
    ensures StripAll(items) == items <==> AllNaked(items)
    decreases items, 1
  {
    if items != [] {
      StripFixedIffNaked(items[0]);
      StripAllFixedIffNaked(items[1..]);
      assert StripAll(items)[1..] == StripAll(items[1..]);
    }
  }

  /** No envelope, here or at a list position, holds another envelope for its body. */
  predicate Unnested(j: Json) {
    if IsEnvelope(j) then
      var body := j.fields["Body"];
      if body.Arr? then AllUnnested(body.items) else !IsEnvelope(body)
    else j.Arr? ==> AllUnnested(j.items)
  }

  predicate AllUnnested(items: seq<Json>) {
    items == [] || (Unnested(items[0]) && AllUnnested(items[1..]))
  }

  lemma {:induction false} StripLeavesNoneIff(j: Json)
    ensures Naked(Strip(j)) <==> Unnested(j)
    decreases j, 0
  {
    if IsEnvelope(j) {
      var body := j.fields["Body"];
      assert body < j;
      if body.Arr? {
        StripAllLeavesNoneIff(body.items);
      }
    } else if j.Arr? {
      StripAllLeavesNoneIff(j.items);
    }
  }

  lemma {:induction false} StripAllLeavesNoneIff(items: seq<Json>)
    ensures AllNaked(StripAll(items)) <==> AllUnnested(items)
    decreases items, 1
  {
    if items != [] {
      StripLeavesNoneIff(items[0]);
      StripAllLeavesNoneIff(items[1..]);
      assert StripAll(items)[1..] == StripAll(items[1..]);
    }
  }

  /** So stripping twice is stripping once exactly when no envelope directly holds another. */
  lemma StripIdempotentIff(j: Json)
    ensures Strip(Strip(j)) == Strip(j) <==> Unnested(j)
  {
    StripFixedIffNaked(Strip(j));
    StripLeavesNoneIff(j);
  }
}
