/** NodeId canonicalization and elementIds (core/neutral.py). */
module ElementIds {
  import opened Neutral

  // ------------------------------------------------------------------ decimal text

  function Digit(d: nat): char
    requires d < 10
  {
    '0' + d as char
  }

  function DigitValue(c: char): nat
    requires '0' <= c <= '9'
  {
    (c - '0') as nat
  }

  function NatText(n: nat): (text: string)
    ensures AllDigits(text)
  {
    if n < 10 then [Digit(n)] else NatText(n / 10) + [Digit(n % 10)]
  }

  function DigitsValue(text: string): nat
    requires forall i :: 0 <= i < |text| ==> '0' <= text[i] <= '9'
  {
    if text == "" then 0 else
      var last := |text| - 1;
      DigitsValue(text[..last]) * 10 + DigitValue(text[last])
  }

  /** Python's `str` of an integer. */
  function IntText(n: int): string {
    if n < 0 then "-" + NatText(-n) else NatText(n)
  }

  /** Python's `int` of a text: an optional sign, then decimal digits. None is ValueError. */
  function ParseInt(text: string): Option<int> {
    if AllDigits(text) then Some(DigitsValue(text))
    else if StartsWith(text, "-") && AllDigits(text[1..]) then Some(0 - DigitsValue(text[1..]))
    else if StartsWith(text, "+") && AllDigits(text[1..]) then Some(DigitsValue(text[1..]))
    else None
  }

  lemma {:induction false} NatTextValue(n: nat)
    ensures DigitsValue(NatText(n)) == n
  {
    if n >= 10 {
      NatTextValue(n / 10);
      assert NatText(n)[..|NatText(n)| - 1] == NatText(n / 10);
    } else {
      assert NatText(n)[..0] == "";
    }
  }

  lemma ParseNegative(text: string)
    requires AllDigits(text)
    ensures ParseInt("-" + text) == Some(0 - DigitsValue(text))
  {
    assert ("-" + text)[0] == '-' && ("-" + text)[1..] == text && ("-" + text)[..1] == "-";
  }

  lemma IntTextRoundTrip(n: int)
    ensures ParseInt(IntText(n)) == Some(n)
  {
    if n < 0 {
      NatTextValue(-n);
      ParseNegative(NatText(-n));
    } else {
      NatTextValue(n);
    }
  }

  /** A text is an integer when it is digits, or a sign and digits; a minus negates. */
  lemma ParseIntExactly(text: string)
    ensures AllDigits(text) ==> ParseInt(text) == Some(DigitsValue(text))
    ensures text != "" && AllDigits(text[1..]) && text[0] == '-' ==> ParseInt(text) == Some(0 - DigitsValue(text[1..]))
    ensures text != "" && AllDigits(text[1..]) && text[0] == '+' ==> ParseInt(text) == Some(DigitsValue(text[1..]))
    ensures ParseInt(text).Some? ==>
              AllDigits(text) || (text != "" && (text[0] == '-' || text[0] == '+') && AllDigits(text[1..]))
  {
    if text != "" {
      assert text[..1] == [text[0]];
    }
  }

  lemma IntTextHasNo(n: int, c: char)
    requires c != '-' && !('0' <= c <= '9')
    ensures c !in IntText(n)
  {
  }

  // ------------------------------------------------------------------ canonical NodeIds

  /** The namespace index and the rest of `ns=<index>;<rest>`. */
  function Indexed(raw: string): Option<(int, string)> {
    if !StartsWith(raw, "ns=") then None else
      match Cut(raw[3..], ';')
      case None => None
      case Some((index, tail)) =>
        match ParseInt(index)
        case None => None
        case Some(ns) => Some((ns, tail))
  }

  function Canonicalize(raw: string): string {
    match Indexed(raw)
    case None => raw
    case Some((ns, tail)) => if ns == 0 then tail else "ns=" + IntText(ns) + ";" + tail
  }

  lemma IndexedAt(index: string, ns: int, tail: string)
    requires ';' !in index && ParseInt(index) == Some(ns)
    ensures Indexed("ns=" + index + ";" + tail) == Some((ns, tail))
  {
    var raw := "ns=" + index + ";" + tail;
    CutAt(index, ';', tail);
    assert raw[..3] == "ns=" && raw[3..] == index + [';'] + tail;
  }

  lemma IndexedText(ns: int, tail: string)
    ensures Indexed("ns=" + IntText(ns) + ";" + tail) == Some((ns, tail))
  {
    IntTextRoundTrip(ns);
    IntTextHasNo(ns, ';');
    IndexedAt(IntText(ns), ns, tail);
  }

  /** Dropping `ns=0;` in front leaves a NodeId that is not canonical itself. */
  predicate UncoversPrefix(raw: string) {
    && Indexed(raw).Some? && Indexed(raw).value.0 == 0
    && Canonicalize(Indexed(raw).value.1) != Indexed(raw).value.1
  }

  /** Canonicalizing twice changes nothing more, except where dropping `ns=0;` uncovers another prefix. */
  lemma CanonicalizeIdempotentIff(raw: string)
    ensures Canonicalize(Canonicalize(raw)) == Canonicalize(raw) <==> !UncoversPrefix(raw)
  {
    match Indexed(raw)
    case None =>
    case Some((ns, tail)) => IndexedText(ns, tail);
  }

  lemma NextDigit(n: nat, d: nat)
    requires d < 10
    ensures NatText(n * 10 + d) == if n == 0 then [Digit(d)] else NatText(n) + [Digit(d)]
  {
    assert (n * 10 + d) / 10 == n && (n * 10 + d) % 10 == d;
  }

  lemma {:induction false} DigitsShrink(text: string)
    requires AllDigits(text)
    ensures |NatText(DigitsValue(text))| <= |text|
    ensures |NatText(DigitsValue(text))| == |text| ==> NatText(DigitsValue(text)) == text
  {
    var last := |text| - 1;
    assert text == text[..last] + [text[last]];
    NextDigit(DigitsValue(text[..last]), DigitValue(text[last]));
    if last == 0 {
      assert text[..0] == "";
    } else {
      DigitsShrink(text[..last]);
    }
  }

  lemma IndexShrinks(index: string, ns: int)
    requires ParseInt(index) == Some(ns)
    ensures |IntText(ns)| <= |index| && (|IntText(ns)| == |index| ==> IntText(ns) == index)
  {
    if AllDigits(index) {
      DigitsShrink(index);
    } else {
      assert index == [index[0]] + index[1..];
      DigitsShrink(index[1..]);
    }
  }

  /** Canonicalizing changes a NodeId only by making it shorter, so it settles after finitely many rounds. */
  lemma CanonicalizeShrinks(raw: string)
    ensures Canonicalize(raw) != raw ==> |Canonicalize(raw)| < |raw|
  {
    if Indexed(raw).Some? {
      var (ns, tail) := Indexed(raw).value;
      var index := Cut(raw[3..], ';').value.0;
      assert raw[3..] == index + ";" + tail && raw == "ns=" + raw[3..];
      IndexShrinks(index, ns);
    }
  }

  /** A `ns=0;` in front is dropped. */
  lemma CanonicalizeDropsZero(tail: string)
    ensures Canonicalize("ns=0;" + tail) == tail
  {
    assert IntText(0) == "0";
    IndexedText(0, tail);
    assert "ns=" + "0" + ";" + tail == "ns=0;" + tail;
  }

  /** `ns=`, an integer and `;` in front: index 0 goes, any other is written in plain decimals, the rest stays. */
  lemma CanonicalizeShows(index: string, ns: int, tail: string)
    requires ';' !in index && ParseInt(index) == Some(ns)
    ensures Canonicalize("ns=" + index + ";" + tail) == if ns == 0 then tail else "ns=" + IntText(ns) + ";" + tail
  {
    IndexedAt(index, ns, tail);
  }

  /** Without that in front a NodeId is canonical. */
  lemma CanonicalizeKeeps(raw: string)
    requires forall index, tail {:trigger index + ";" + tail} ::
               ';' !in index && raw == "ns=" + index + ";" + tail ==> ParseInt(index) == None
    ensures Canonicalize(raw) == raw
  {
    if StartsWith(raw, "ns=") && Cut(raw[3..], ';').Some? {
      var (index, tail) := Cut(raw[3..], ';').value;
      assert raw == raw[..3] + raw[3..] && raw == "ns=" + (index + ";" + tail);
      assert "ns=" + (index + ";" + tail) == "ns=" + index + ";" + tail;
    }
  }

  lemma CanonicalizeTwiceExample()
    ensures Canonicalize("ns=0;ns=0;i=5") == "ns=0;i=5" && Canonicalize("ns=0;i=5") == "i=5"
  {
    CanonicalizeDropsZero("i=5");
    CanonicalizeDropsZero("ns=0;i=5");
    assert "ns=0;" + "i=5" == "ns=0;i=5" && "ns=0;" + "ns=0;i=5" == "ns=0;ns=0;i=5";
  }

  // ------------------------------------------------------------------ elementIds

  datatype ElementRef = ElementRef(connection: string, nodeId: string) {
    function AsId(): string {
      connection + "!" + nodeId
    }
  }

  /** None is ValueError: no `!` in the elementId. */
  function Parse(elementId: string): Option<ElementRef> {
    match Cut(elementId, '!')
    case None => None
    case Some((connection, node)) => Some(ElementRef(connection, Canonicalize(node)))
  }

  /** What the routes make of an elementId before it reaches the subscription manager. */
  function CanonicalElementId(elementId: string): string {
    match Parse(elementId)
    case None => elementId
    case Some(ref) => ref.AsId()
  }

  /** An elementId without the separator reaches the manager as it is, any other with its NodeId canonicalized. */
  lemma CanonicalIdShows(connection: string, node: string)
    requires '!' !in connection
    ensures CanonicalElementId(connection) == connection
    ensures CanonicalElementId(connection + "!" + node) == connection + "!" + Canonicalize(node)
  {
    CutAt(connection, '!', node);
    assert Cut(connection, '!').Some? ==> '!' in connection;
  }

  /** An elementId parses back to its parts exactly when the connection has no `!` and the NodeId is canonical. */
  lemma AsIdParsesIff(ref: ElementRef)
    ensures Parse(ref.AsId()) == Some(ref) <==> '!' !in ref.connection && Canonicalize(ref.nodeId) == ref.nodeId
    ensures '!' !in ref.connection ==> Parse(ref.AsId()) == Some(ElementRef(ref.connection, Canonicalize(ref.nodeId)))
  {
    if '!' !in ref.connection {
      CutAt(ref.connection, '!', ref.nodeId);
    }
  }

  /** Distinct refs of connections without `!` have distinct elementIds. */
  lemma AsIdInjective(a: ElementRef, b: ElementRef)
    requires '!' !in a.connection && '!' !in b.connection && a.AsId() == b.AsId()
    ensures a == b
  {
    CutAt(a.connection, '!', a.nodeId);
    CutAt(b.connection, '!', b.nodeId);
  }
}
