/** The reversible JSON encoding of Variants (ouajson/encode.py, section 5.4 of OPC UA Part 6). */
module VariantCodec {
  import opened Neutral
  import opened ElementIds
  import opened Json

  // ------------------------------------------------------------------ values

  /** The builtin type ids of section 5.1.2 of OPC UA Part 6, with 0 for Null. */
  type VariantType = t: int | 0 <= t <= 25

  const NULL: VariantType := 0
  const BOOLEAN: VariantType := 1
  const SBYTE: VariantType := 2
  const UINT32: VariantType := 7
  const INT64: VariantType := 8
  const UINT64: VariantType := 9
  const FLOAT: VariantType := 10
  const DOUBLE: VariantType := 11
  const STRING: VariantType := 12
  const DATE_TIME: VariantType := 13
  const GUID: VariantType := 14
  const BYTE_STRING: VariantType := 15
  const XML_ELEMENT: VariantType := 16
  const NODE_ID: VariantType := 17
  const EXPANDED_NODE_ID: VariantType := 18
  const STATUS_CODE: VariantType := 19
  const QUALIFIED_NAME: VariantType := 20
  const LOCALIZED_TEXT: VariantType := 21
  const DATA_VALUE: VariantType := 23
  const VARIANT: VariantType := 24

  datatype Float = Finite(r: real) | NaN | PosInf | NegInf

  datatype Identifier = Numeric(n: int) | Text(s: string) | Guid(g: int) | Opaque(bytes: seq<int>)

  datatype NodeId = NodeId(id: Identifier, namespace: int)

  datatype ExpandedNodeId = ExpandedNodeId(nodeId: NodeId, namespaceUri: Option<string>, serverIndex: int)

  datatype QualifiedName = QualifiedName(name: string, namespaceIndex: int)

  datatype LocalizedText = LocalizedText(text: Option<string>, locale: Option<string>)

  datatype StatusCode = StatusCode(code: int, symbol: string)

  /** A Variant's body. A moment and a GUID are plain numbers here; their texts are `Texts`. */
  datatype Value =
    | NoValue
    | BoolValue(b: bool)
    | IntValue(i: int)
    | FloatValue(f: Float)
    | StringValue(s: string)
    | MomentValue(moment: int)
    | GuidValue(g: int)
    | BytesValue(bytes: seq<int>)
    | NodeIdValue(nodeId: NodeId)
    | ExpandedValue(expanded: ExpandedNodeId)
    | StatusValue(status: StatusCode)
    | NameValue(name: QualifiedName)
    | LocalizedValue(localized: LocalizedText)
    | VariantValue(variant: Variant)
    | DataValueValue(dataValue: DataValue)
    | List(items: seq<Value>)

  datatype Variant = Variant(typ: VariantType, body: Value, dimensions: Option<seq<nat>>)

  datatype DataValue = DataValue(
    value: Variant, status: StatusCode, sourceTime: Option<int>, sourcePico: int, serverTime: Option<int>,
        serverPico: int)

  /** The texts of moments, GUIDs and byte strings, with their readers. */
  datatype Texts = Texts(
    moment: int -> string, readMoment: string -> int, guid: int -> string, readGuid: string -> int,
    bytes: seq<int> -> string, readBytes: string -> seq<int>)
  {
    ghost predicate Faithful() {
      && (forall t :: readMoment(moment(t)) == t)
      && (forall g :: readGuid(guid(g)) == g)
      && (forall b :: readBytes(bytes(b)) == b)
    }
  }

  function Size(x: Value): nat {
    match x
    case VariantValue(v) => 1 + VariantSize(v)
    case DataValueValue(d) => 2 + VariantSize(d.value)
    case List(items) => 1 + SizeAll(items)
    case _ => 1
  }

  function VariantSize(v: Variant): nat {
    1 + Size(v.body)
  }

  function SizeAll(items: seq<Value>): nat {
    if items == [] then 0 else Size(items[0]) + SizeAll(items[1..])
  }

  lemma {:induction false} SizeAllAppend(a: seq<Value>, b: seq<Value>)
    ensures SizeAll(a + b) == SizeAll(a) + SizeAll(b)
    decreases |a|
  {
    if a == [] {
      assert a + b == b;
    } else {
      assert (a + b)[1..] == a[1..] + b;
      SizeAllAppend(a[1..], b);
    }
  }

  // ------------------------------------------------------------------ matrices

  /** Row-major flattening of nested lists. */
  function Flatten(x: Value): (flat: seq<Value>)
    ensures SizeAll(flat) <= Size(x)
    decreases x, 0
  {
    if x.List? then FlattenAll(x.items) else
      assert [x][1..] == [];
      [x]
  }

  function FlattenAll(items: seq<Value>): (flat: seq<Value>)
    ensures SizeAll(flat) <= SizeAll(items)
    decreases items, 1
  {
    if items == [] then [] else
      SizeAllAppend(Flatten(items[0]), FlattenAll(items[1..]));
      Flatten(items[0]) + FlattenAll(items[1..])
  }

  lemma {:induction false} FlattenAllAppend(items: seq<Value>, last: Value)
    ensures FlattenAll(items + [last]) == FlattenAll(items) + Flatten(last)
    decreases |items|
  {
    if items == [] {
      assert items + [last] == [last] && [last][1..] == [];
    } else {
      assert (items + [last])[1..] == items[1..] + [last];
      FlattenAllAppend(items[1..], last);
    }
  }

  method FlattenMatrix(x: Value) returns (out: seq<Value>)
    ensures out == Flatten(x)
    decreases x
  {
    out := [];
    if x.List? {
      for k := 0 to |x.items|
        invariant out == FlattenAll(x.items[..k])
      {
        assert x.items[..k + 1] == x.items[..k] + [x.items[k]];
        FlattenAllAppend(x.items[..k], x.items[k]);
        if x.items[k].List? {
          var inner := FlattenMatrix(x.items[k]);
          out := out + inner;
        } else {
          out := out + [x.items[k]];
        }
      }
      assert x.items[..|x.items|] == x.items;
    } else {
      out := out + [x];
    }
  }

  function Product(dims: seq<nat>): nat {
    if dims == [] then 1 else dims[0] * Product(dims[1..])
  }

  /** The nested lists a flat row-major list stands for. */
  function Reshape(dims: seq<nat>, flat: seq<Value>): Value
    requires |flat| == Product(dims)
    decreases |dims|, 0
  {
    if dims == [] then flat[0] else List(ReshapeRows(dims[0], dims[1..], flat))
  }

  function ReshapeRows(n: nat, dims: seq<nat>, flat: seq<Value>): seq<Value>
    requires |flat| == n * Product(dims)
    decreases |dims|, n + 1
  {
    if n == 0 then [] else
      var p := Product(dims);
      MulStep(n, p);
      [Reshape(dims, flat[..p])] + ReshapeRows(n - 1, dims, flat[p..])
  }

  // ------------------------------------------------------------------ well-typed variants

  predicate IsInteger(t: VariantType) {
    SBYTE <= t <= UINT64
  }

  /** None fits every type; ExtensionObject and DiagnosticInfo bodies are outside this model. */
  predicate WellTyped(t: VariantType, x: Value)
    decreases Size(x), 0
  {
    match x
    case NoValue => true
    case BoolValue(_) => t == BOOLEAN
    case IntValue(_) => IsInteger(t)
    case FloatValue(_) => t == FLOAT || t == DOUBLE
    case StringValue(_) => t == STRING || t == XML_ELEMENT
    case MomentValue(_) => t == DATE_TIME
    case GuidValue(_) => t == GUID
    case BytesValue(_) => t == BYTE_STRING
    case NodeIdValue(_) => t == NODE_ID
    case ExpandedValue(_) => t == EXPANDED_NODE_ID
    case StatusValue(_) => t == STATUS_CODE
    case NameValue(_) => t == QUALIFIED_NAME
    case LocalizedValue(_) => t == LOCALIZED_TEXT
    case VariantValue(v) => t == VARIANT && WellFormed(v)
    case DataValueValue(d) => t == DATA_VALUE && WellFormed(d.value)
    case List(_) => false
  }

  predicate AllTyped(t: VariantType, items: seq<Value>)
    decreases SizeAll(items), 1 + |items|
  {
    items == [] || (WellTyped(t, items[0]) && AllTyped(t, items[1..]))
  }

  /** Nested lists of exactly these lengths. */
  predicate Shaped(x: Value, dims: seq<nat>)
    decreases x, 0
  {
    if dims == [] then !x.List? else x.List? && |x.items| == dims[0] && AllShaped(x.items, dims[1..])
  }

  predicate AllShaped(items: seq<Value>, dims: seq<nat>)
    decreases items, 1
  {
    items == [] || (Shaped(items[0], dims) && AllShaped(items[1..], dims))
  }

  predicate IsMatrix(v: Variant) {
    v.dimensions.Some? && |v.dimensions.value| > 1
  }

  predicate WellFormed(v: Variant)
    decreases VariantSize(v), 0
  {
    if IsMatrix(v) then Shaped(v.body, v.dimensions.value) && AllTyped(v.typ, Flatten(v.body))
    else if v.body.List? then assert Size(v.body) == 1 + SizeAll(v.body.items); AllTyped(v.typ, v.body.items)
    else WellTyped(v.typ, v.body) && !(v.dimensions.Some? && |v.dimensions.value| == 1)
  }

  // ------------------------------------------------------------------ encoding

  function EncodeFloat(f: Float): Json {
    match f
    case Finite(r) => Real(r)
    case NaN => Str("NaN")
    case PosInf => Str("Infinity")
    case NegInf => Str("-Infinity")
  }

  function IdType(id: Identifier): int {
    match id
    case Numeric(_) => 0
    case Text(_) => 1
    case Guid(_) => 2
    case Opaque(_) => 3
  }

  function EncodeIdentifier(tx: Texts, id: Identifier): Json {
    match id
    case Numeric(n) => Int(n)
    case Text(s) => Str(s)
    case Guid(g) => Str(tx.guid(g))
    case Opaque(b) => Str(tx.bytes(b))
  }

  function EncodeNodeId(tx: Texts, n: NodeId): map<string, Json> {
    map["IdType" := Int(IdType(n.id)), "Id" := EncodeIdentifier(tx, n.id)]
    + (if n.namespace != 0 then map["Namespace" := Int(n.namespace)] else map[])
  }

  predicate HasUri(e: ExpandedNodeId) {
    e.namespaceUri.Some? && e.namespaceUri.value != ""
  }

  /** A namespace URI overrides the namespace index. */
  function EncodeExpanded(tx: Texts, e: ExpandedNodeId): map<string, Json> {
    var out := EncodeNodeId(tx, e.nodeId);
    (if HasUri(e) then out["Namespace" := Str(e.namespaceUri.value)] else out)
    + (if e.serverIndex != 0 then map["ServerUri" := Int(e.serverIndex)] else map[])
  }

  function EncodeName(q: QualifiedName): map<string, Json> {
    map["Name" := Str(q.name)] + (if q.namespaceIndex != 0 then map["Uri" := Int(q.namespaceIndex)] else map[])
  }

  function EncodeLocalized(l: LocalizedText): map<string, Json> {
    (if l.locale.Some? && l.locale.value != "" then map["Locale" := Str(l.locale.value)] else map[])
    + (if l.text.Some? then map["Text" := Str(l.text.value)] else map[])
  }

  /** The three-valued quality a status collapses to. */
  function EncodeStatus(s: StatusCode): string {
    if s.symbol == "Good" then "Good" else if StartsWith(s.symbol, "Bad") then "Bad" else "GoodNoData"
  }

  const GOOD := StatusCode(0, "Good")

  function EncodeScalar(tx: Texts, t: VariantType, x: Value): Json
    requires WellTyped(t, x)
    decreases Size(x), 0
  {
    if x.NoValue? then Null
    else if t == BOOLEAN then Bool(x.b)
    else if SBYTE <= t <= UINT32 then Int(x.i)
    else if t == INT64 || t == UINT64 then Str(IntText(x.i))
    else if t == FLOAT || t == DOUBLE then EncodeFloat(x.f)
    else if t == STRING then Str(x.s)
    else if t == DATE_TIME then Str(tx.moment(x.moment))
    else if t == GUID then Str(tx.guid(x.g))
    else if t == BYTE_STRING then Str(tx.bytes(x.bytes))
    else if t == XML_ELEMENT then Str(x.s)
    else if t == NODE_ID then Obj(EncodeNodeId(tx, x.nodeId))
    else if t == EXPANDED_NODE_ID then Obj(EncodeExpanded(tx, x.expanded))
    else if t == STATUS_CODE then Str(EncodeStatus(x.status))
    else if t == QUALIFIED_NAME then Obj(EncodeName(x.name))
    else if t == LOCALIZED_TEXT then Obj(EncodeLocalized(x.localized))
    else if t == VARIANT then EncodeVariant(tx, x.variant)
    else EncodeDataValue(tx, x.dataValue)
  }

  function EncodeAll(tx: Texts, t: VariantType, items: seq<Value>): (out: seq<Json>)
    requires AllTyped(t, items)
    ensures |out| == |items|
    decreases SizeAll(items), 1 + |items|
  {
    if items == [] then [] else [EncodeScalar(tx, t, items[0])] + EncodeAll(tx, t, items[1..])
  }

  function Numbers(dims: seq<nat>): (out: seq<Json>)
    ensures |out| == |dims| && forall i :: 0 <= i < |dims| ==> out[i] == Int(dims[i])
  {
    seq(|dims|, i requires 0 <= i < |dims| => Int(dims[i]))
  }

  function EncodeBody(tx: Texts, v: Variant): Json
    requires WellFormed(v)
    decreases VariantSize(v), 0
  {
    if IsMatrix(v) then Arr(EncodeAll(tx, v.typ, Flatten(v.body)))
    else if v.body.List? then
      assert Size(v.body) == 1 + SizeAll(v.body.items);
      Arr(EncodeAll(tx, v.typ, v.body.items))
    else EncodeScalar(tx, v.typ, v.body)
  }

  function EncodeVariant(tx: Texts, v: Variant): Json
    requires WellFormed(v)
    decreases VariantSize(v), 1
  {
    Obj(map["Type" := Int(v.typ), "Body" := EncodeBody(tx, v)]
        + (if v.dimensions.Some? then map["Dimensions" := Arr(Numbers(v.dimensions.value))] else map[]))
  }

  function EncodeDataValue(tx: Texts, d: DataValue): Json
    requires WellFormed(d.value)
    decreases VariantSize(d.value), 2
  {
    Obj(DataFields(tx, map["Value" := EncodeVariant(tx, d.value)], d))
  }

  /** `out[name] = j`, when there is something to set. */
  function Set(out: map<string, Json>, name: string, j: Option<Json>): map<string, Json> {
    if j.Some? then out[name := j.value] else out
  }

  function Moment(tx: Texts, t: Option<int>): Option<Json> {
    if t.Some? then Some(Str(tx.moment(t.value))) else None
  }

  function NonZero(n: int): Option<Json> {
    if n != 0 then Some(Int(n)) else None
  }

  /** The fields after the value, defaults left out. */
  function DataFields(tx: Texts, out: map<string, Json>, d: DataValue): map<string, Json> {
    var out := Set(out, "Status", if d.status != GOOD then Some(Str(EncodeStatus(d.status))) else None);
    var out := Set(out, "SourceTimestamp", Moment(tx, d.sourceTime));
    var out := Set(out, "SourcePicoseconds", NonZero(d.sourcePico));
    var out := Set(out, "ServerTimestamp", Moment(tx, d.serverTime));
    Set(out, "ServerPicoseconds", NonZero(d.serverPico))
  }

  // ------------------------------------------------------------------ decoding

  function Field(fields: map<string, Json>, name: string): Option<Json> {
    if name in fields then Some(fields[name]) else None
  }

  /** A missing number counts as 0. */
  function IntField(fields: map<string, Json>, name: string): Option<int> {
    match Field(fields, name)
    case None => Some(0)
    case Some(j) => if j.Int? then Some(j.i) else None
  }

  /** A missing text is no text. */
  function TextField(fields: map<string, Json>, name: string): Option<Option<string>> {
    match Field(fields, name)
    case None => Some(None)
    case Some(j) => if j.Str? then Some(Some(j.s)) else None
  }

  function DecodeFloat(j: Json): Option<Float> {
    if j.Real? then Some(Finite(j.r))
    else if j == Str("NaN") then Some(NaN)
    else if j == Str("Infinity") then Some(PosInf)
    else if j == Str("-Infinity") then Some(NegInf)
    else None
  }

  function DecodeIdentifier(tx: Texts, idType: Json, id: Json): Option<Identifier> {
    if idType == Int(0) && id.Int? then Some(Numeric(id.i))
    else if idType == Int(1) && id.Str? then Some(Text(id.s))
    else if idType == Int(2) && id.Str? then Some(Guid(tx.readGuid(id.s)))
    else if idType == Int(3) && id.Str? then Some(Opaque(tx.readBytes(id.s)))
    else None
  }

  function DecodeNodeId(tx: Texts, fields: map<string, Json>): Option<NodeId> {
    if !("IdType" in fields && "Id" in fields) then None else
      match (DecodeIdentifier(tx, fields["IdType"], fields["Id"]), IntField(fields, "Namespace"))
      case (Some(id), Some(namespace)) => Some(NodeId(id, namespace))
      case _ => None
  }

  function DecodeExpanded(tx: Texts, fields: map<string, Json>): Option<ExpandedNodeId> {
    var uri := if "Namespace" in fields && fields["Namespace"].Str? then Some(fields["Namespace"].s) else None;
    match (DecodeNodeId(tx, if uri.Some? then fields - {"Namespace"} else fields), IntField(fields, "ServerUri"))
    case (Some(nodeId), Some(server)) => Some(ExpandedNodeId(nodeId, uri, server))
    case _ => None
  }

  function DecodeName(fields: map<string, Json>): Option<QualifiedName> {
    match (TextField(fields, "Name"), IntField(fields, "Uri"))
    case (Some(Some(name)), Some(index)) => Some(QualifiedName(name, index))
    case _ => None
  }

  function DecodeLocalized(fields: map<string, Json>): Option<LocalizedText> {
    match (TextField(fields, "Text"), TextField(fields, "Locale"))
    case (Some(text), Some(locale)) => Some(LocalizedText(text, locale))
    case _ => None
  }

  /** The reader of an optional moment. */
  function MomentField(tx: Texts, fields: map<string, Json>, name: string): Option<Option<int>> {
    match TextField(fields, name)
    case None => None
    case Some(None) => Some(None)
    case Some(Some(text)) => Some(Some(tx.readMoment(text)))
  }

  function DecodeScalar(tx: Texts, t: VariantType, j: Json): Option<Value>
    decreases j, 1
  {
    if j.Null? then Some(NoValue)
    else if t == BOOLEAN then if j.Bool? then Some(BoolValue(j.b)) else None
    else if SBYTE <= t <= UINT32 then if j.Int? then Some(IntValue(j.i)) else None
    else if t == INT64 || t == UINT64 then
      if j.Str? && ParseInt(j.s).Some? then Some(IntValue(ParseInt(j.s).value)) else None
    else if t == FLOAT || t == DOUBLE then
      match DecodeFloat(j) { case Some(f) => Some(FloatValue(f)) case None => None }
    else if t == STRING || t == XML_ELEMENT then if j.Str? then Some(StringValue(j.s)) else None
    else if t == DATE_TIME then if j.Str? then Some(MomentValue(tx.readMoment(j.s))) else None
    else if t == GUID then if j.Str? then Some(GuidValue(tx.readGuid(j.s))) else None
    else if t == BYTE_STRING then if j.Str? then Some(BytesValue(tx.readBytes(j.s))) else None
    else if t == STATUS_CODE then if j.Str? then Some(StatusValue(StatusCode(0, j.s))) else None
    else if !j.Obj? then None
    else if t == NODE_ID then
      match DecodeNodeId(tx, j.fields) { case Some(n) => Some(NodeIdValue(n)) case None => None }
    else if t == EXPANDED_NODE_ID then
      match DecodeExpanded(tx, j.fields) { case Some(e) => Some(ExpandedValue(e)) case None => None }
    else if t == QUALIFIED_NAME then
      match DecodeName(j.fields) { case Some(q) => Some(NameValue(q)) case None => None }
    else if t == LOCALIZED_TEXT then
      match DecodeLocalized(j.fields) { case Some(l) => Some(LocalizedValue(l)) case None => None }
    else if t == VARIANT then
      match DecodeVariant(tx, j) { case Some(v) => Some(VariantValue(v)) case None => None }
    else if t == DATA_VALUE then
      match DecodeDataValue(tx, j) { case Some(d) => Some(DataValueValue(d)) case None => None }
    else None
  }

  function DecodeAll(tx: Texts, t: VariantType, items: seq<Json>): Option<seq<Value>>
    decreases items, 2
  {
    if items == [] then Some([]) else
      match (DecodeScalar(tx, t, items[0]), DecodeAll(tx, t, items[1..]))
      case (Some(first), Some(rest)) => Some([first] + rest)
      case _ => None
  }

  function DecodeDims(j: Json): Option<seq<nat>> {
    if j.Arr? && forall i :: 0 <= i < |j.items| ==> j.items[i].Int? && j.items[i].i >= 0
    then Some(seq(|j.items|, i requires 0 <= i < |j.items| => j.items[i].i)) else None
  }

  function DecodeBody(tx: Texts, t: VariantType, dims: Option<seq<nat>>, body: Json): Option<Value>
    decreases body, 3
  {
    if body.Arr? then
      match DecodeAll(tx, t, body.items)
      case None => None
      case Some(items) =>
        if dims.Some? && |dims.value| > 1 then
          if |items| == Product(dims.value) then Some(Reshape(dims.value, items)) else None
        else Some(List(items))
    else DecodeScalar(tx, t, body)
  }

  function DecodeVariant(tx: Texts, j: Json): Option<Variant>
    decreases j, 0
  {
    if !IsEnvelope(j) || !j.fields["Type"].Int? || !(0 <= j.fields["Type"].i <= 25) then None else
      var t: VariantType := j.fields["Type"].i;
      if "Dimensions" in j.fields then
        match DecodeDims(j.fields["Dimensions"])
        case None => None
        case Some(dims) =>
          match DecodeBody(tx, t, Some(dims), j.fields["Body"])
          case None => None
          case Some(body) => Some(Variant(t, body, Some(dims)))
      else
        match DecodeBody(tx, t, None, j.fields["Body"])
        case None => None
        case Some(body) => Some(Variant(t, body, None))
  }

  function DecodeDataValue(tx: Texts, j: Json): Option<DataValue>
    decreases j, 0
  {
    if !j.Obj? || "Value" !in j.fields then None else
      match (DecodeVariant(tx, j.fields["Value"]), TextField(j.fields, "Status"),
             MomentField(tx, j.fields, "SourceTimestamp"), IntField(j.fields, "SourcePicoseconds"),
             MomentField(tx, j.fields, "ServerTimestamp"), IntField(j.fields, "ServerPicoseconds"))
      case (Some(v), Some(status), Some(sourceTime), Some(sourcePico), Some(serverTime), Some(serverPico)) =>
        Some(DataValue(v, StatusCode(0, status.GetOr("Good")), sourceTime, sourcePico, serverTime, serverPico))
      case _ => None
  }

  // ------------------------------------------------------------------ what survives

  function NormExpanded(e: ExpandedNodeId): ExpandedNodeId {
    if HasUri(e) then e.(nodeId := e.nodeId.(namespace := 0)) else e.(namespaceUri := None)
  }

  function NormLocalized(l: LocalizedText): LocalizedText {
    if l.locale == Some("") then l.(locale := None) else l
  }

  function NormStatus(s: StatusCode): StatusCode {
    StatusCode(0, EncodeStatus(s))
  }

  /** A value without what the encoding leaves out: the namespace index under a namespace URI, empty
      URIs and locales, and all of a status but its quality. */
  function Norm(x: Value): Value {
    match x
    case ExpandedValue(e) => ExpandedValue(NormExpanded(e))
    case LocalizedValue(l) => LocalizedValue(NormLocalized(l))
    case StatusValue(s) => StatusValue(NormStatus(s))
    case VariantValue(v) => VariantValue(NormVariant(v))
    case DataValueValue(d) => DataValueValue(NormDataValue(d))
    case List(items) => List(NormAll(items))
    case _ => x
  }

  function NormAll(items: seq<Value>): (out: seq<Value>)
    ensures |out| == |items|
  {
    if items == [] then [] else [Norm(items[0])] + NormAll(items[1..])
  }

  function NormVariant(v: Variant): Variant {
    v.(body := Norm(v.body))
  }

  function NormDataValue(d: DataValue): DataValue {
    d.(value := NormVariant(d.value), status := NormStatus(d.status))
  }

  lemma MulStep(n: nat, p: nat)
    requires n > 0
    ensures n * p == p + (n - 1) * p
  {
  }

  lemma {:induction false} FlattenLength(x: Value, dims: seq<nat>)
    requires Shaped(x, dims)
    ensures |Flatten(x)| == Product(dims)
    decreases x, 0
  {
    if dims != [] {
      FlattenAllLength(x.items, dims[1..]);
    }
  }

  lemma {:induction false} FlattenAllLength(items: seq<Value>, dims: seq<nat>)
    requires AllShaped(items, dims)
    ensures |FlattenAll(items)| == |items| * Product(dims)
    decreases items, 1
  {
    if items != [] {
      FlattenLength(items[0], dims);
      FlattenAllLength(items[1..], dims);
      MulStep(|items|, Product(dims));
    }
  }

  lemma {:induction false} ReshapeFlatten(x: Value, dims: seq<nat>)
    requires Shaped(x, dims)
    ensures |Flatten(x)| == Product(dims) && Reshape(dims, Flatten(x)) == x
    decreases x, 0
  {
    FlattenLength(x, dims);
    if dims != [] {
      ReshapeRowsFlatten(x.items, dims[1..]);
    }
  }

  lemma {:induction false} ReshapeRowsFlatten(items: seq<Value>, dims: seq<nat>)
    requires AllShaped(items, dims)
    ensures |FlattenAll(items)| == |items| * Product(dims)
    ensures ReshapeRows(|items|, dims, FlattenAll(items)) == items
    decreases items, 1
  {
    FlattenAllLength(items, dims);
    if items != [] {
      var n, flat := |items|, FlattenAll(items);
      ReshapeFlatten(items[0], dims);
      ReshapeRowsFlatten(items[1..], dims);
      var p := |Flatten(items[0])|;
      assert flat[..p] == Flatten(items[0]) && flat[p..] == FlattenAll(items[1..]);
      assert ReshapeRows(n, dims, flat) == [items[0]] + ReshapeRows(n - 1, dims, flat[p..]);
    }
  }

  lemma {:induction false} NormKeepsShape(x: Value, dims: seq<nat>)
    requires Shaped(x, dims)
    ensures Shaped(Norm(x), dims) && Flatten(Norm(x)) == NormAll(Flatten(x))
    decreases x, 0
  {
    if dims == [] {
      assert [x][1..] == [] && NormAll([x]) == [Norm(x)] + NormAll([]);
    } else {
      NormAllKeepsShape(x.items, dims[1..]);
    }
  }

  lemma {:induction false} NormAllKeepsShape(items: seq<Value>, dims: seq<nat>)
    requires AllShaped(items, dims)
    ensures AllShaped(NormAll(items), dims) && FlattenAll(NormAll(items)) == NormAll(FlattenAll(items))
    decreases items, 1
  {
    if items != [] {
      NormKeepsShape(items[0], dims);
      NormAllKeepsShape(items[1..], dims);
      NormAllAppend(Flatten(items[0]), FlattenAll(items[1..]));
      assert NormAll(items)[1..] == NormAll(items[1..]);
    }
  }

  lemma {:induction false} NormAllAppend(a: seq<Value>, b: seq<Value>)
    ensures NormAll(a + b) == NormAll(a) + NormAll(b)
    decreases |a|
  {
    if a == [] {
      assert a + b == b;
    } else {
      assert (a + b)[1..] == a[1..] + b;
      NormAllAppend(a[1..], b);
    }
  }

  // ------------------------------------------------------------------ the round trip

  lemma NodeIdRoundTrip(tx: Texts, n: NodeId)
    requires tx.Faithful()
    ensures DecodeNodeId(tx, EncodeNodeId(tx, n)) == Some(n)
  {
  }

  lemma ExpandedRoundTrip(tx: Texts, e: ExpandedNodeId)
    requires tx.Faithful()
    ensures DecodeExpanded(tx, EncodeExpanded(tx, e)) == Some(NormExpanded(e))
  {
    var fields := EncodeExpanded(tx, e);
    if HasUri(e) {
      assert (fields - {"Namespace"})["IdType"] == Int(IdType(e.nodeId.id));
    }
  }

  lemma PlainRoundTrip(tx: Texts, t: VariantType, x: Value)
    requires tx.Faithful() && WellTyped(t, x) && !x.VariantValue? && !x.DataValueValue?
    ensures DecodeScalar(tx, t, EncodeScalar(tx, t, x)) == Some(Norm(x))
  {
    match x
    case IntValue(i) => IntTextRoundTrip(i);
    case NodeIdValue(n) => NodeIdRoundTrip(tx, n);
    case ExpandedValue(e) => ExpandedRoundTrip(tx, e);
    case _ =>
  }

  lemma {:induction false} ScalarRoundTrip(tx: Texts, t: VariantType, x: Value)
    requires tx.Faithful() && WellTyped(t, x)
    ensures DecodeScalar(tx, t, EncodeScalar(tx, t, x)) == Some(Norm(x))
    ensures !EncodeScalar(tx, t, x).Arr?
    decreases Size(x), 0
  {
    match x
    case VariantValue(v) => VariantRoundTrip(tx, v);
    case DataValueValue(d) => DataValueRoundTrip(tx, d);
    case _ => PlainRoundTrip(tx, t, x);
  }

  lemma {:induction false} AllRoundTrip(tx: Texts, t: VariantType, items: seq<Value>)
    requires tx.Faithful() && AllTyped(t, items)
    ensures DecodeAll(tx, t, EncodeAll(tx, t, items)) == Some(NormAll(items))
    decreases SizeAll(items), 1 + |items|
  {
    if items != [] {
      ScalarRoundTrip(tx, t, items[0]);
      AllRoundTrip(tx, t, items[1..]);
      assert EncodeAll(tx, t, items)[1..] == EncodeAll(tx, t, items[1..]);
    }
  }

  lemma {:induction false} BodyRoundTrip(tx: Texts, v: Variant)
    requires tx.Faithful() && WellFormed(v)
    ensures DecodeBody(tx, v.typ, v.dimensions, EncodeBody(tx, v)) == Some(Norm(v.body))
    decreases VariantSize(v), 0
  {
    if IsMatrix(v) {
      AllRoundTrip(tx, v.typ, Flatten(v.body));
      NormKeepsShape(v.body, v.dimensions.value);
      ReshapeFlatten(Norm(v.body), v.dimensions.value);
    } else if v.body.List? {
      assert Size(v.body) == 1 + SizeAll(v.body.items);
      AllRoundTrip(tx, v.typ, v.body.items);
    } else {
      ScalarRoundTrip(tx, v.typ, v.body);
    }
  }

  lemma DimsRoundTrip(dims: seq<nat>)
    ensures DecodeDims(Arr(Numbers(dims))) == Some(dims)
  {
    var read := DecodeDims(Arr(Numbers(dims)));
    assert read.Some? && read.value == dims;
  }

  /** Decoding an encoded Variant gives it back, up to what the encoding leaves out on purpose. */
  lemma {:induction false} VariantRoundTrip(tx: Texts, v: Variant)
    requires tx.Faithful() && WellFormed(v)
    ensures DecodeVariant(tx, EncodeVariant(tx, v)) == Some(NormVariant(v))
    decreases VariantSize(v), 1
  {
    BodyRoundTrip(tx, v);
    if v.dimensions.Some? {
      DimsRoundTrip(v.dimensions.value);
    }
  }

  lemma DataFieldsExact(tx: Texts, value: Json, d: DataValue)
    ensures var fields := DataFields(tx, map["Value" := value], d);
      && Field(fields, "Value") == Some(value)
      && Field(fields, "Status") == (if d.status != GOOD then Some(Str(EncodeStatus(d.status))) else None)
      && Field(fields, "SourceTimestamp") == Moment(tx, d.sourceTime)
      && Field(fields, "SourcePicoseconds") == NonZero(d.sourcePico)
      && Field(fields, "ServerTimestamp") == Moment(tx, d.serverTime)
      && Field(fields, "ServerPicoseconds") == NonZero(d.serverPico)
  {
  }

  lemma MomentRoundTrip(tx: Texts, fields: map<string, Json>, name: string, t: Option<int>)
    requires tx.Faithful() && Field(fields, name) == Moment(tx, t)
    ensures MomentField(tx, fields, name) == Some(t)
  {
    if t.Some? {
      assert tx.readMoment(tx.moment(t.value)) == t.value;
    }
  }

  lemma {:induction false} DataValueRoundTrip(tx: Texts, d: DataValue)
    requires tx.Faithful() && WellFormed(d.value)
    ensures DecodeDataValue(tx, EncodeDataValue(tx, d)) == Some(NormDataValue(d))
    decreases VariantSize(d.value), 2
  {
    VariantRoundTrip(tx, d.value);
    DataFieldsExact(tx, EncodeVariant(tx, d.value), d);
    var fields := EncodeDataValue(tx, d).fields;
    assert TextField(fields, "Status") == Some(if d.status != GOOD then Some(EncodeStatus(d.status)) else None);
    MomentRoundTrip(tx, fields, "SourceTimestamp", d.sourceTime);
    MomentRoundTrip(tx, fields, "ServerTimestamp", d.serverTime);
    assert IntField(fields, "SourcePicoseconds") == Some(d.sourcePico);
    assert IntField(fields, "ServerPicoseconds") == Some(d.serverPico);
  }

  // ------------------------------------------------------------------ exactly when nothing is lost

  predicate KeepsStatus(s: StatusCode) {
    s.code == 0 && (s.symbol == "Good" || s.symbol == "Bad" || s.symbol == "GoodNoData")
  }

  predicate Lossless(x: Value) {
    match x
    case ExpandedValue(e) => e.namespaceUri != Some("") && (HasUri(e) ==> e.nodeId.namespace == 0)
    case LocalizedValue(l) => l.locale != Some("")
    case StatusValue(s) => KeepsStatus(s)
    case VariantValue(v) => Lossless(v.body)
    case DataValueValue(d) => Lossless(d.value.body) && KeepsStatus(d.status)
    case List(items) => AllLossless(items)
    case _ => true
  }

  predicate AllLossless(items: seq<Value>) {
    items == [] || (Lossless(items[0]) && AllLossless(items[1..]))
  }

  lemma NormStatusIff(s: StatusCode)
    ensures NormStatus(s) == s <==> KeepsStatus(s)
  {
    assert "Bad"[..3] == "Bad" && "GoodNoData"[..3][0] == 'G';
  }

  lemma {:induction false} NormFixedIff(x: Value)
    ensures Norm(x) == x <==> Lossless(x)
    decreases x, 0
  {
    match x
    case VariantValue(v) => NormFixedIff(v.body);
    case StatusValue(s) => NormStatusIff(s);
    case DataValueValue(d) =>
      NormFixedIff(d.value.body);
      NormStatusIff(d.status);
      assert NormVariant(d.value) == d.value <==> Norm(d.value.body) == d.value.body;
    case List(items) => NormAllFixedIff(items);
    case _ =>
  }

  lemma {:induction false} NormAllFixedIff(items: seq<Value>)
    ensures NormAll(items) == items <==> AllLossless(items)
    decreases items, 1
  {
    if items != [] {
      NormFixedIff(items[0]);
      NormAllFixedIff(items[1..]);
      assert NormAll(items)[1..] == NormAll(items[1..]);
    }
  }

  /** The encoding is reversible exactly on Variants without a namespace index under a URI, an empty URI
      or locale, or a status beyond the three qualities. */
  lemma ReversibleIff(tx: Texts, v: Variant)
    requires tx.Faithful() && WellFormed(v)
    ensures DecodeVariant(tx, EncodeVariant(tx, v)) == Some(v) <==> Lossless(v.body)
  {
    VariantRoundTrip(tx, v);
    NormFixedIff(v.body);
  }

  /** An empty locale comes back as no locale. */
  lemma EmptyLocaleIsLost(tx: Texts)
    requires tx.Faithful()
    ensures var v := Variant(LOCALIZED_TEXT, LocalizedValue(LocalizedText(Some("Tank"), Some(""))), None);
      WellFormed(v) && DecodeVariant(tx, EncodeVariant(tx, v)) != Some(v)
  {
    ReversibleIff(tx, Variant(LOCALIZED_TEXT, LocalizedValue(LocalizedText(Some("Tank"), Some(""))), None));
  }

  // ------------------------------------------------------------------ stripping an encoded variant

  /** No Variant in a list, or list of Variants, holds a single Variant. */
  predicate Strippable(v: Variant)
    decreases VariantSize(v), 0
  {
    if IsMatrix(v) then AllStrippable(Flatten(v.body))
    else if v.body.List? then
      assert Size(v.body) == 1 + SizeAll(v.body.items);
      AllStrippable(v.body.items)
    else !v.body.VariantValue?
  }

  predicate AllStrippable(items: seq<Value>)
    decreases SizeAll(items), |items|
  {
    items == [] ||
    (assert Size(items[0]) <= SizeAll(items);
     (items[0].VariantValue? ==> assert VariantSize(items[0].variant) < Size(items[0]); Strippable(items[0].variant))
     && AllStrippable(items[1..]))
  }

  lemma ScalarNotEnvelope(tx: Texts, t: VariantType, x: Value)
    requires WellTyped(t, x)
    ensures IsEnvelope(EncodeScalar(tx, t, x)) <==> x.VariantValue?
    ensures !EncodeScalar(tx, t, x).Arr?
  {
  }

  lemma {:induction false} StripsAllIff(tx: Texts, t: VariantType, items: seq<Value>)
    requires AllTyped(t, items)
    ensures AllNaked(StripAll(EncodeAll(tx, t, items))) <==> AllStrippable(items)
    decreases SizeAll(items), |items|
  {
    if items != [] {
      var all := EncodeAll(tx, t, items);
      ScalarNotEnvelope(tx, t, items[0]);
      assert WellTyped(t, items[0]) && Size(items[0]) <= SizeAll(items);
      if items[0].VariantValue? {
        assert VariantSize(items[0].variant) < Size(items[0]);
        StripsIff(tx, items[0].variant);
      }
      StripsAllIff(tx, t, items[1..]);
      assert all[1..] == EncodeAll(tx, t, items[1..]);
      assert StripAll(all)[1..] == StripAll(all[1..]);
    }
  }

  /** Stripping an encoded Variant leaves no envelope at any list position exactly when it is strippable. */
  lemma {:induction false} StripsIff(tx: Texts, v: Variant)
    requires WellFormed(v)
    ensures Naked(Strip(EncodeVariant(tx, v))) <==> Strippable(v)
    decreases VariantSize(v), 0
  {
    if IsMatrix(v) {
      StripsAllIff(tx, v.typ, Flatten(v.body));
    } else if v.body.List? {
      assert Size(v.body) == 1 + SizeAll(v.body.items);
      StripsAllIff(tx, v.typ, v.body.items);
    } else {
      ScalarNotEnvelope(tx, v.typ, v.body);
    }
  }

  /** So stripping an encoded Variant is idempotent exactly when no scalar Variant in it has a Variant for its body. */
  lemma StripVariantTwiceIff(tx: Texts, v: Variant)
    requires WellFormed(v)
    ensures Strip(Strip(EncodeVariant(tx, v))) == Strip(EncodeVariant(tx, v)) <==> Strippable(v)
  {
    StripFixedIffNaked(Strip(EncodeVariant(tx, v)));
    StripsIff(tx, v);
  }

  function Wrapped(w: Variant): Variant {
    Variant(VARIANT, VariantValue(w), None)
  }

  /** Any Variant wrapped in a Variant comes out with its own envelope, which a second stripping takes off. */
  lemma WrappedStripsTwice(tx: Texts, w: Variant)
    requires WellFormed(w)
    ensures WellFormed(Wrapped(w)) && Strip(EncodeVariant(tx, Wrapped(w))) == EncodeVariant(tx, w)
    ensures Strip(Strip(EncodeVariant(tx, Wrapped(w)))) != Strip(EncodeVariant(tx, Wrapped(w)))
  {
    assert VariantSize(w) < Size(VariantValue(w)) < VariantSize(Wrapped(w));
    assert WellTyped(VARIANT, VariantValue(w));
    assert EncodeScalar(tx, VARIANT, VariantValue(w)) == EncodeVariant(tx, w);
    StripVariantTwiceIff(tx, Wrapped(w));
  }

  /** What a consumer sees of an array or matrix of plain values: the encoded elements in row-major order. */
  lemma {:induction false} StripShowsElements(tx: Texts, v: Variant)
    requires WellFormed(v) && v.body.List? && v.typ != VARIANT
    ensures Strip(EncodeVariant(tx, v)) == EncodeBody(tx, v)
  {
    var items := if IsMatrix(v) then Flatten(v.body) else v.body.items;
    StripAllPlain(tx, v.typ, items);
  }

  lemma {:induction false} StripAllPlain(tx: Texts, t: VariantType, items: seq<Value>)
    requires AllTyped(t, items) && t != VARIANT
    ensures StripAll(EncodeAll(tx, t, items)) == EncodeAll(tx, t, items)
  {
    if items != [] {
      ScalarNotEnvelope(tx, t, items[0]);
      StripAllPlain(tx, t, items[1..]);
      assert EncodeAll(tx, t, items)[1..] == EncodeAll(tx, t, items[1..]);
    }
  }

  // ------------------------------------------------------------------ what a consumer sees

  /** What stripping leaves of a Variant that is no list of Variants still decodes, by its type and dimensions, to the
      body up to what the encoding leaves out: nothing else is lost with the envelope. */
  lemma StripDecodes(tx: Texts, v: Variant)
    requires tx.Faithful() && WellFormed(v) && !(v.typ == VARIANT && v.body.List?)
    ensures DecodeBody(tx, v.typ, v.dimensions, Strip(EncodeVariant(tx, v))) == Some(Norm(v.body))
  {
    BodyRoundTrip(tx, v);
    if v.body.List? {
      StripShowsElements(tx, v);
    } else {
      ScalarNotEnvelope(tx, v.typ, v.body);
      assert !IsMatrix(v);
      assert EncodeBody(tx, v) == EncodeScalar(tx, v.typ, v.body);
    }
  }

  /** Of a list of Variants it leaves a list in the same order, with each Variant stripped in its place. */
  lemma StripShowsVariants(tx: Texts, v: Variant, k: nat)
    requires WellFormed(v) && v.typ == VARIANT && v.body.List?
    requires k < |if IsMatrix(v) then Flatten(v.body) else v.body.items|
    ensures var items := if IsMatrix(v) then Flatten(v.body) else v.body.items;
      var left := Strip(EncodeVariant(tx, v));
      && left.Arr? && |left.items| == |items|
      && (items[k].NoValue? ==> left.items[k] == Null)
      && (items[k].VariantValue? ==>
            WellFormed(items[k].variant) && left.items[k] == Strip(EncodeVariant(tx, items[k].variant)))
  {
    var items := if IsMatrix(v) then Flatten(v.body) else v.body.items;
    if !IsMatrix(v) {
      assert Size(v.body) == 1 + SizeAll(v.body.items);
    }
    assert EncodeBody(tx, v) == Arr(EncodeAll(tx, VARIANT, items));
    StripAllAt(EncodeAll(tx, VARIANT, items), k);
    EncodeAllAt(tx, VARIANT, items, k);
  }

  lemma {:induction false} EncodeAllAt(tx: Texts, t: VariantType, items: seq<Value>, k: nat)
    requires AllTyped(t, items) && k < |items|
    ensures WellTyped(t, items[k]) && EncodeAll(tx, t, items)[k] == EncodeScalar(tx, t, items[k])
  {
    if k > 0 {
      EncodeAllAt(tx, t, items[1..], k - 1);
    }
  }

  // ------------------------------------------------------------------ what comes back of the lossy values

  function Bare(t: VariantType, x: Value): Variant {
    Variant(t, x, None)
  }

  /** Of a status comes back which of the three qualities it has: Good itself, Bad for whatever starts so, and
      GoodNoData for all others. */
  lemma StatusComesBack(tx: Texts, s: StatusCode)
    requires tx.Faithful()
    ensures var word := if s.symbol == "Good" then "Good"
                        else if |s.symbol| >= 3 && s.symbol[..3] == "Bad" then "Bad" else "GoodNoData";
      DecodeVariant(tx, EncodeVariant(tx, Bare(STATUS_CODE, StatusValue(s))))
        == Some(Bare(STATUS_CODE, StatusValue(StatusCode(0, word))))
  {
    VariantRoundTrip(tx, Bare(STATUS_CODE, StatusValue(s)));
  }

  /** A namespace URI takes the place of the namespace index; an empty one is dropped. */
  lemma ExpandedComesBack(tx: Texts, id: Identifier, namespace: int, uri: string, server: int)
    requires tx.Faithful()
    ensures var e := ExpandedNodeId(NodeId(id, namespace), Some(uri), server);
      DecodeVariant(tx, EncodeVariant(tx, Bare(EXPANDED_NODE_ID, ExpandedValue(e))))
        == Some(Bare(EXPANDED_NODE_ID, ExpandedValue(if uri != "" then ExpandedNodeId(NodeId(id, 0), Some(uri), server)
                                                     else ExpandedNodeId(NodeId(id, namespace), None, server))))
  {
    var e := ExpandedNodeId(NodeId(id, namespace), Some(uri), server);
    VariantRoundTrip(tx, Bare(EXPANDED_NODE_ID, ExpandedValue(e)));
  }

  // ------------------------------------------------------------------ the JSON of each built-in type

  function Envelope(t: int, body: Json): Json {
    Obj(map["Type" := Int(t), "Body" := body])
  }

  lemma BareEncodes(tx: Texts, t: VariantType, x: Value)
    requires WellTyped(t, x)
    ensures WellFormed(Bare(t, x)) && EncodeVariant(tx, Bare(t, x)) == Envelope(t, EncodeScalar(tx, t, x))
  {
    assert map["Type" := Int(t), "Body" := EncodeScalar(tx, t, x)] + map[]
        == map["Type" := Int(t), "Body" := EncodeScalar(tx, t, x)];
  }

  /** What a value of a type is encoded as. */
  ghost predicate Encodes(tx: Texts, t: int, x: Value, body: Json) {
    0 <= t <= 25 && WellFormed(Variant(t, x, None)) && EncodeVariant(tx, Variant(t, x, None)) == Envelope(t, body)
  }

  /** Section 5.4.2 of OPC UA Part 6, for types 1 to 9: a 64-bit integer is a text. */
  lemma IntegerForms(tx: Texts, b: bool, i: int, t: VariantType)
    requires 2 <= t <= 7
    ensures Encodes(tx, 1, BoolValue(b), Bool(b))
    ensures Encodes(tx, t, IntValue(i), Int(i)) && Encodes(tx, t, NoValue, Null)
    ensures Encodes(tx, 8, IntValue(i), Str(IntText(i))) && Encodes(tx, 9, IntValue(i), Str(IntText(i)))
  {
    BareEncodes(tx, 1, BoolValue(b));
    BareEncodes(tx, t, IntValue(i));
    BareEncodes(tx, t, NoValue);
    BareEncodes(tx, 8, IntValue(i));
    BareEncodes(tx, 9, IntValue(i));
  }

  /** Types 10 and 11: what is no number is a word. */
  lemma FloatForms(tx: Texts, x: real, t: VariantType)
    requires t == 10 || t == 11
    ensures Encodes(tx, t, FloatValue(Finite(x)), Real(x)) && Encodes(tx, t, FloatValue(NaN), Str("NaN"))
    ensures Encodes(tx, t, FloatValue(PosInf), Str("Infinity")) && Encodes(tx, t, FloatValue(NegInf), Str("-Infinity"))
  {
    BareEncodes(tx, t, FloatValue(Finite(x)));
    BareEncodes(tx, t, FloatValue(NaN));
    BareEncodes(tx, t, FloatValue(PosInf));
    BareEncodes(tx, t, FloatValue(NegInf));
  }

  /** Types 12 to 16. */
  lemma TextForms(tx: Texts, i: int, s: string, bytes: seq<int>)
    ensures Encodes(tx, 12, StringValue(s), Str(s)) && Encodes(tx, 16, StringValue(s), Str(s))
    ensures Encodes(tx, 13, MomentValue(i), Str(tx.moment(i)))
    ensures Encodes(tx, 14, GuidValue(i), Str(tx.guid(i)))
    ensures Encodes(tx, 15, BytesValue(bytes), Str(tx.bytes(bytes)))
  {
    BareEncodes(tx, 12, StringValue(s));
    BareEncodes(tx, 16, StringValue(s));
    BareEncodes(tx, 13, MomentValue(i));
    BareEncodes(tx, 14, GuidValue(i));
    BareEncodes(tx, 15, BytesValue(bytes));
  }

  /** Types 17, 18, 20 and 21: the fields of an identifier, and when the optional ones stand. */
  lemma NamedForms(tx: Texts, n: int, ns: int, uri: string, server: int, s: string, locale: string, bytes: seq<int>)
    requires ns != 0 && server != 0 && uri != "" && locale != ""
    ensures Encodes(tx, 17, NodeIdValue(NodeId(Numeric(n), 0)), Obj(map["IdType" := Int(0), "Id" := Int(n)]))
    ensures Encodes(tx, 17, NodeIdValue(NodeId(Text(s), ns)),
                    Obj(map["IdType" := Int(1), "Id" := Str(s), "Namespace" := Int(ns)]))
    ensures Encodes(tx, 17, NodeIdValue(NodeId(Opaque(bytes), 0)),
                    Obj(map["IdType" := Int(3), "Id" := Str(tx.bytes(bytes))]))
    ensures Encodes(tx, 18, ExpandedValue(ExpandedNodeId(NodeId(Guid(n), ns), Some(uri), server)),
                    Obj(map["IdType" := Int(2), "Id" := Str(tx.guid(n)), "Namespace" := Str(uri),
                            "ServerUri" := Int(server)]))
    ensures Encodes(tx, 20, NameValue(QualifiedName(s, ns)), Obj(map["Name" := Str(s), "Uri" := Int(ns)]))
    ensures Encodes(tx, 20, NameValue(QualifiedName(s, 0)), Obj(map["Name" := Str(s)]))
    ensures Encodes(tx, 21, LocalizedValue(LocalizedText(Some(s), Some(locale))),
                    Obj(map["Locale" := Str(locale), "Text" := Str(s)]))
  {
    NodeForms(tx, n, ns, s, bytes);
    ExpandedForm(tx, n, ns, uri, server);
    NameForms(tx, ns, s, locale);
  }

  lemma NodeForms(tx: Texts, n: int, ns: int, s: string, bytes: seq<int>)
    requires ns != 0
    ensures Encodes(tx, 17, NodeIdValue(NodeId(Numeric(n), 0)), Obj(map["IdType" := Int(0), "Id" := Int(n)]))
    ensures Encodes(tx, 17, NodeIdValue(NodeId(Text(s), ns)),
                    Obj(map["IdType" := Int(1), "Id" := Str(s), "Namespace" := Int(ns)]))
    ensures Encodes(tx, 17, NodeIdValue(NodeId(Opaque(bytes), 0)),
                    Obj(map["IdType" := Int(3), "Id" := Str(tx.bytes(bytes))]))
  {
    BareEncodes(tx, 17, NodeIdValue(NodeId(Numeric(n), 0)));
    BareEncodes(tx, 17, NodeIdValue(NodeId(Text(s), ns)));
    BareEncodes(tx, 17, NodeIdValue(NodeId(Opaque(bytes), 0)));
    assert EncodeNodeId(tx, NodeId(Numeric(n), 0)) == map["IdType" := Int(0), "Id" := Int(n)];
    assert EncodeNodeId(tx, NodeId(Text(s), ns)) == map["IdType" := Int(1), "Id" := Str(s), "Namespace" := Int(ns)];
    assert EncodeNodeId(tx, NodeId(Opaque(bytes), 0)) == map["IdType" := Int(3), "Id" := Str(tx.bytes(bytes))];
  }

  lemma ExpandedForm(tx: Texts, n: int, ns: int, uri: string, server: int)
    requires uri != "" && server != 0
    ensures Encodes(tx, 18, ExpandedValue(ExpandedNodeId(NodeId(Guid(n), ns), Some(uri), server)),
                    Obj(map["IdType" := Int(2), "Id" := Str(tx.guid(n)), "Namespace" := Str(uri),
                            "ServerUri" := Int(server)]))
  {
    var e := ExpandedNodeId(NodeId(Guid(n), ns), Some(uri), server);
    BareEncodes(tx, 18, ExpandedValue(e));
    assert EncodeExpanded(tx, e) == map["IdType" := Int(2), "Id" := Str(tx.guid(n)), "Namespace" := Str(uri),
                                        "ServerUri" := Int(server)];
  }

  lemma NameForms(tx: Texts, ns: int, s: string, locale: string)
    requires ns != 0 && locale != ""
    ensures Encodes(tx, 20, NameValue(QualifiedName(s, ns)), Obj(map["Name" := Str(s), "Uri" := Int(ns)]))
    ensures Encodes(tx, 20, NameValue(QualifiedName(s, 0)), Obj(map["Name" := Str(s)]))
    ensures Encodes(tx, 21, LocalizedValue(LocalizedText(Some(s), Some(locale))),
                    Obj(map["Locale" := Str(locale), "Text" := Str(s)]))
  {
    BareEncodes(tx, 20, NameValue(QualifiedName(s, ns)));
    BareEncodes(tx, 20, NameValue(QualifiedName(s, 0)));
    BareEncodes(tx, 21, LocalizedValue(LocalizedText(Some(s), Some(locale))));
    assert EncodeName(QualifiedName(s, ns)) == map["Name" := Str(s), "Uri" := Int(ns)];
    assert EncodeName(QualifiedName(s, 0)) == map["Name" := Str(s)];
    assert EncodeLocalized(LocalizedText(Some(s), Some(locale))) == map["Locale" := Str(locale), "Text" := Str(s)];
  }
}
