/** The neutral records that cross the adapter boundary (core/neutral.py). */
module Neutral {

  datatype Option<+T> = None | Some(value: T) {
    function GetOr(default: T): T {
      match this
      case Some(v) => v
      case None => default
    }
  }

  datatype NodeClass =
    | Object | Variable | Method | ObjectType | VariableType | ReferenceType | DataType | View

  /** One emitted node. `typeSourceId` is None when the server gave neither a
      type definition nor a data type; the wire ids are "" until they are stamped. */
  datatype NodeDescriptor = NodeDescriptor(
    nodeId: string,
    connection: string,
    displayName: string,
    nodeClass: NodeClass,
    namespaceUri: string,
    typeSourceId: Option<string>,
    parentNodeId: Option<string>,
    isComposition: bool,
    parentRelationship: string,
    dataTypeNodeId: Option<string>,
    dataTypeName: Option<string>,
    accessLevel: Option<int>,
    valueRank: Option<int>,
    wireNodeId: string,
    parentWireNodeId: string)

  ghost predicate NoRepeats<T>(s: seq<T>) {
    forall i, j :: 0 <= i < j < |s| ==> s[i] != s[j]
  }

  function ToSet<T>(s: seq<T>): set<T> {
    set x | x in s
  }

  // ------------------------------------------------------------------ text

  /** Python's `s.partition(c)`: None when `c` does not occur. */
  function Cut(s: string, c: char): (parts: Option<(string, string)>)
    ensures parts.Some? ==> s == parts.value.0 + [c] + parts.value.1 && c !in parts.value.0
    ensures parts.None? ==> c !in s
  {
    if s == "" then None
    else if s[0] == c then Some(("", s[1..]))
    else
      match Cut(s[1..], c)
      case None => None
      case Some((before, after)) => Some(([s[0]] + before, after))
  }

  lemma {:induction false} CutAt(before: string, c: char, after: string)
    requires c !in before
    ensures Cut(before + [c] + after, c) == Some((before, after))
  {
    var s := before + [c] + after;
    if before != "" {
      assert s[0] == before[0] && s[1..] == before[1..] + [c] + after;
      CutAt(before[1..], c, after);
      assert [before[0]] + before[1..] == before;
    } else {
      assert s[0] == c && s[1..] == after;
    }
  }

  predicate StartsWith(s: string, prefix: string) {
    |prefix| <= |s| && s[..|prefix|] == prefix
  }

  predicate AllDigits(s: string) {
    s != "" && forall i :: 0 <= i < |s| ==> '0' <= s[i] <= '9'
  }
}
