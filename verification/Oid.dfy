// Object identifiers in DER (section 8.19 of ITU-T X.690): one encoding each, so comparing arcs is comparing octets.
module Oid {
  import opened Numbers
  import opened Options
  import opened Digits
  import opened Der

  const MAX_SUBIDENTIFIERS: nat := 64

  // ---------- Base-128 integers ----------

  // Every digit but the last carries the continuation bit.
  function Continued(ds: seq<nat>): (r: seq<nat>)
    requires ds != [] && AreDigits(ds, 128)
    ensures |r| == |ds|
  {
    seq(|ds|, i requires 0 <= i < |ds| => if i < |ds| - 1 then ds[i] + 128 else ds[i])
  }

  function Base128(value: nat): seq<nat> {
    Continued(ToDigits(value, 128))
  }

  function Low7(bytes: seq<Byte>): (ds: seq<nat>)
    ensures |ds| == |bytes| && AreDigits(ds, 128)
  {
    seq(|bytes|, i requires 0 <= i < |bytes| => bytes[i] % 128)
  }

  datatype Decoded = Decoded(value: nat, next: nat)

  // A safe integer is encoded at `start` and ends within `end`.
  ghost predicate IntegerAt(bytes: seq<Byte>, start: nat, end: nat, d: Decoded) {
    start < d.next <= end <= |bytes| && d.value <= MAX_SAFE_INTEGER && bytes[start..d.next] == Base128(d.value)
  }

  ghost predicate LooksLikeInteger(bytes: seq<Byte>, start: nat, end: nat, d: Decoded) {
    start < d.next <= end <= |bytes| && d.value <= MAX_SAFE_INTEGER && bytes[start] != 128 && bytes[d.next - 1] < 128 &&
    (forall i :: start <= i < d.next - 1 ==> bytes[i] >= 128) && FromDigits(Low7(bytes[start..d.next]), 128) == d.value
  }

  lemma IntegerLooksLikeInteger(bytes: seq<Byte>, start: nat, end: nat, d: Decoded)
    requires IntegerAt(bytes, start, end, d)
    ensures LooksLikeInteger(bytes, start, end, d)
  {
    hide FromDigits, ToDigits;
    var ds, octets := ToDigits(d.value, 128), bytes[start..d.next];
    FromTo(d.value, 128);
    assert octets == Continued(ds);
    assert forall i :: 0 <= i < |ds| ==> bytes[start + i] == octets[i];
    assert Low7(octets) == ds;
    assert octets[0] == bytes[start];
  }

  lemma LookalikeIsInteger(bytes: seq<Byte>, start: nat, end: nat, d: Decoded)
    requires LooksLikeInteger(bytes, start, end, d)
    ensures IntegerAt(bytes, start, end, d)
  {
    hide FromDigits, ToDigits;
    var octets := bytes[start..d.next];
    var ds := Low7(octets);
    assert forall i :: 0 <= i < |ds| ==> bytes[start + i] == octets[i];
    ToFrom(ds, 128);
    assert octets == Continued(ds);
  }

  lemma IntegerIsUnique(bytes: seq<Byte>, start: nat, end: nat, d: Decoded, other: Decoded)
    requires IntegerAt(bytes, start, end, d) && IntegerAt(bytes, start, end, other)
    ensures d == other
  {
    hide FromDigits, IntegerAt;
    IntegerLooksLikeInteger(bytes, start, end, d);
    IntegerLooksLikeInteger(bytes, start, end, other);
    assert bytes[d.next - 1] < 128 && bytes[other.next - 1] < 128;
    assert d.next == other.next;
  }

  lemma NoSafeIntegerPast(bytes: seq<Byte>, start: nat, offset: nat, end: nat, d: Decoded)
    requires LooksLikeInteger(bytes, start, end, d) && start <= offset < end <= |bytes|
    requires forall i :: start <= i < offset ==> bytes[i] >= 128
    ensures offset < d.next && FromDigits(Low7(bytes[start..offset + 1]), 128) <= MAX_SAFE_INTEGER
  {
    hide FromDigits;
    var ds := Low7(bytes[start..d.next]);
    PrefixIsSmaller(ds, 128, offset + 1 - start);
    assert Low7(bytes[start..offset + 1]) == ds[..offset + 1 - start];
  }

  // An integer is read exactly when the octets are its minimal encoding and its value is a safe integer.
  method Base128Integer(bytes: seq<Byte>, start: nat, end: nat) returns (r: Option<Decoded>)
    requires end <= |bytes|
    ensures r.Some? ==> IntegerAt(bytes, start, end, r.value)
    ensures r.None? ==> forall d :: !IntegerAt(bytes, start, end, d)
  {
    forall d | IntegerAt(bytes, start, end, d) ensures LooksLikeInteger(bytes, start, end, d) {
      IntegerLooksLikeInteger(bytes, start, end, d);
    }
    hide IntegerAt;
    if start >= end || bytes[start] == 128 { return None; }
    var value: nat := 0;
    for offset := start to end
      invariant forall i :: start <= i < offset ==> bytes[i] >= 128
      invariant value == FromDigits(Low7(bytes[start..offset]), 128) && value <= MAX_SAFE_INTEGER
    {
      var octet := bytes[offset];
      assert Low7(bytes[start..offset + 1])[..offset - start] == Low7(bytes[start..offset]);
      value := value * 128 + octet % 128;
      if value > MAX_SAFE_INTEGER {
        forall d | LooksLikeInteger(bytes, start, end, d) ensures false {
          NoSafeIntegerPast(bytes, start, offset, end, d);
        }
        return None;
      }
      if octet < 128 {
        LookalikeIsInteger(bytes, start, end, Decoded(value, offset + 1));
        return Some(Decoded(value, offset + 1));
      }
    }
    r := None;
  }

  // ---------- Subidentifiers ----------

  // `values` are encoded one after the other from `start` to `stop`, each within `end`.
  ghost predicate IntegersAt(bytes: seq<Byte>, values: seq<nat>, start: nat, stop: nat, end: nat)
    decreases |values|
  {
    if values == [] then start == stop
    else
      var next := start + |Base128(values[0])|;
      IntegerAt(bytes, start, end, Decoded(values[0], next)) && IntegersAt(bytes, values[1..], next, stop, end)
  }

  lemma {:induction false} OneMoreInteger(bytes: seq<Byte>, values: seq<nat>, start: nat, stop: nat, end: nat,
                                          d: Decoded)
    requires IntegersAt(bytes, values, start, stop, end) && IntegerAt(bytes, stop, end, d)
    ensures IntegersAt(bytes, values + [d.value], start, d.next, end)
    decreases |values|
  {
    hide Base128;
    if values == [] {
      assert (values + [d.value])[1..] == [];
      assert |bytes[stop..d.next]| == |Base128(d.value)|;
    } else {
      hide IntegerAt;
      assert (values + [d.value])[1..] == values[1..] + [d.value];
      OneMoreInteger(bytes, values[1..], start + |Base128(values[0])|, stop, end, d);
    }
  }

  lemma {:induction false} IntegersAdvance(bytes: seq<Byte>, values: seq<nat>, start: nat, stop: nat, end: nat)
    requires IntegersAt(bytes, values, start, stop, end)
    ensures start <= stop && (values != [] ==> start < stop <= end <= |bytes|)
    decreases |values|
  {
    hide Base128;
    if values == [] {
    } else {
      IntegersAdvance(bytes, values[1..], start + |Base128(values[0])|, stop, end);
    }
  }

  // Any reading of all octets up to `end` continues the one found so far.
  lemma {:induction false} ReadingContinues(bytes: seq<Byte>, found: seq<nat>, values: seq<nat>, start: nat, stop: nat,
                                            end: nat)
    requires IntegersAt(bytes, found, start, stop, end) && IntegersAt(bytes, values, start, end, end) && stop < end
    ensures |found| < |values| && found == values[..|found|]
    ensures exists d :: IntegerAt(bytes, stop, end, d)
    decreases |found|
  {
    hide Base128, IntegerAt;
    if found == [] {
    } else if values == [] {
      IntegersAdvance(bytes, found, start, stop, end);
    } else {
      var next := start + |Base128(found[0])|;
      IntegerIsUnique(bytes, start, end, Decoded(found[0], next), Decoded(values[0], start + |Base128(values[0])|));
      ReadingContinues(bytes, found[1..], values[1..], next, stop, end);
      assert found == [found[0]] + found[1..];
    }
  }

  function EncodeAll(values: seq<nat>): seq<nat> {
    if values == [] then [] else Base128(values[0]) + EncodeAll(values[1..])
  }

  predicate AllSafe(values: seq<nat>) {
    forall i :: 0 <= i < |values| ==> values[i] <= MAX_SAFE_INTEGER
  }

  // Being encoded one after the other is being the concatenation of the encodings.
  lemma {:induction false} IntegersAreConcatenated(bytes: seq<Byte>, values: seq<nat>, start: nat, end: nat)
    requires start <= end <= |bytes|
    ensures IntegersAt(bytes, values, start, end, end) <==> AllSafe(values) && bytes[start..end] == EncodeAll(values)
    decreases |values|
  {
    hide Base128;
    if values == [] {
    } else {
      var code, rest := Base128(values[0]), EncodeAll(values[1..]);
      var next := start + |code|;
      assert Base128(values[0]) != [] by { Base128IsNotEmpty(values[0]); }
      if next <= end {
        IntegersAreConcatenated(bytes, values[1..], next, end);
        assert bytes[start..end] == bytes[start..next] + bytes[next..end];
        assert bytes[start..end] == code + rest <==> bytes[start..next] == code && bytes[next..end] == rest by {
          Halves(bytes[start..next], bytes[next..end], code, rest);
        }
        AllSafeSplits(values);
      } else {
        assert |EncodeAll(values)| > end - start;
      }
    }
  }

  lemma Base128IsNotEmpty(value: nat)
    ensures Base128(value) != []
  {
  }

  lemma AllSafeSplits(values: seq<nat>)
    requires values != []
    ensures AllSafe(values) <==> values[0] <= MAX_SAFE_INTEGER && AllSafe(values[1..])
  {
    if values[0] <= MAX_SAFE_INTEGER && AllSafe(values[1..]) {
      assert forall i :: 0 < i < |values| ==> values[i] == values[1..][i - 1];
    }
  }

  lemma Halves(a: seq<nat>, b: seq<nat>, c: seq<nat>, d: seq<nat>)
    requires |a| == |c|
    ensures a + b == c + d <==> a == c && b == d
  {
    if a + b == c + d {
      assert (a + b)[..|a|] == (c + d)[..|c|];
      assert (a + b)[|a|..] == (c + d)[|c|..];
    }
  }

  // ---------- Identifiers ----------

  // The first two arcs share a subidentifier.
  predicate ValidArcs(arcs: seq<nat>) {
    2 <= |arcs| <= MAX_SUBIDENTIFIERS + 1 && arcs[0] <= 2 && (arcs[0] < 2 ==> arcs[1] < 40) &&
    AllSafe(Subidentifiers(arcs))
  }

  function Subidentifiers(arcs: seq<nat>): seq<nat> {
    if |arcs| < 2 then arcs else [40 * arcs[0] + arcs[1]] + arcs[2..]
  }

  function SplitFirst(values: seq<nat>): seq<nat> requires values != [] {
    var first := values[0];
    var arc := if first < 40 then 0 else if first < 80 then 1 else 2;
    [arc, first - 40 * arc] + values[1..]
  }

  // Splitting the first subidentifier inverts 40 X + Y, in both directions.
  lemma SplitInvertsJoin(arcs: seq<nat>)
    requires |arcs| >= 2 && arcs[0] <= 2 && (arcs[0] < 2 ==> arcs[1] < 40)
    ensures SplitFirst(Subidentifiers(arcs)) == arcs
  {
    assert arcs == [arcs[0], arcs[1]] + arcs[2..];
  }

  lemma JoinInvertsSplit(values: seq<nat>)
    requires values != []
    ensures Subidentifiers(SplitFirst(values)) == values
    ensures SplitFirst(values)[0] <= 2 && (SplitFirst(values)[0] < 2 ==> SplitFirst(values)[1] < 40)
  {
    assert SplitFirst(values)[2..] == values[1..];
    assert values == [values[0]] + values[1..];
  }

  // The encoding of an identifier within the safe-integer and length bounds.
  ghost predicate Encodes(content: seq<Byte>, arcs: seq<nat>) {
    ValidArcs(arcs) && content == EncodeAll(Subidentifiers(arcs))
  }

  // An identifier is decoded exactly when the content is the encoding of one.
  method DerOid(bytes: seq<Byte>, node: Node) returns (r: Option<seq<nat>>)
    requires node.contentStart <= node.contentEnd <= |bytes|
    ensures r.Some? ==> node.tag == 6 && Encodes(bytes[node.contentStart..node.contentEnd], r.value)
    ensures r.None? ==> node.tag != 6 || forall arcs :: !Encodes(bytes[node.contentStart..node.contentEnd], arcs)
  {
    hide Base128, IntegerAt, AllSafe;
    var start, end := node.contentStart, node.contentEnd;
    forall arcs | Encodes(bytes[start..end], arcs)
      ensures IntegersAt(bytes, Subidentifiers(arcs), start, end, end) &&
              |Subidentifiers(arcs)| <= MAX_SUBIDENTIFIERS && start < end
    {
      IntegersAreConcatenated(bytes, Subidentifiers(arcs), start, end);
      IntegersAdvance(bytes, Subidentifiers(arcs), start, end, end);
    }
    if node.tag != 6 { return None; }
    if start >= end { return None; }
    hide Encodes;
    var values: seq<nat> := [];
    var offset := start;
    while offset < end
      invariant start <= offset <= end && |values| <= MAX_SUBIDENTIFIERS && (values == [] ==> offset == start)
      invariant IntegersAt(bytes, values, start, offset, end)
      decreases end - offset
    {
      forall arcs | Encodes(bytes[start..end], arcs)
        ensures |values| < |Subidentifiers(arcs)| && exists d :: IntegerAt(bytes, offset, end, d)
      {
        ReadingContinues(bytes, values, Subidentifiers(arcs), start, offset, end);
      }
      if |values| >= MAX_SUBIDENTIFIERS { return None; }
      var decoded := Base128Integer(bytes, offset, end);
      if decoded.None? { return None; }
      OneMoreInteger(bytes, values, start, offset, end, decoded.value);
      IntegerEndsInRange(bytes, offset, end, decoded.value);
      values := values + [decoded.value.value];
      offset := decoded.value.next;
    }
    var first := values[0];
    var firstArc := if first < 40 then 0 else if first < 80 then 1 else 2;
    r := Some([firstArc, first - firstArc * 40] + values[1..]);
    SplitEncodes(bytes, values, start, end);
  }

  lemma IntegerEndsInRange(bytes: seq<Byte>, start: nat, end: nat, d: Decoded)
    requires IntegerAt(bytes, start, end, d)
    ensures start < d.next <= end
  {
  }

  lemma SplitEncodes(bytes: seq<Byte>, values: seq<nat>, start: nat, end: nat)
    requires start <= end <= |bytes| && IntegersAt(bytes, values, start, end, end) &&
             1 <= |values| <= MAX_SUBIDENTIFIERS
    ensures Encodes(bytes[start..end], SplitFirst(values))
  {
    hide Base128, IntegersAt;
    IntegersAreConcatenated(bytes, values, start, end);
    JoinInvertsSplit(values);
  }

  // ---------- Comparing identifiers ----------

  // One identifier has one encoding, and one encoding one identifier.
  lemma EncodingIsInjective(content: seq<Byte>, arcs: seq<nat>, other: seq<nat>)
    requires Encodes(content, arcs) && Encodes(content, other)
    ensures arcs == other
  {
    hide Base128, SplitFirst, AllSafe;
    var n := |content|;
    assert content[0..n] == content;
    var values, values2 := Subidentifiers(arcs), Subidentifiers(other);
    IntegersAreConcatenated(content, values, 0, n);
    IntegersAreConcatenated(content, values2, 0, n);
    SameReading(content, values, values2, 0, n);
    SplitInvertsJoin(arcs);
    SplitInvertsJoin(other);
  }

  lemma {:induction false} SameReading(bytes: seq<Byte>, values: seq<nat>, other: seq<nat>, start: nat, end: nat)
    requires IntegersAt(bytes, values, start, end, end) && IntegersAt(bytes, other, start, end, end)
    ensures values == other
    decreases |values|
  {
    hide Base128, IntegerAt;
    IntegersAdvance(bytes, values, start, end, end);
    IntegersAdvance(bytes, other, start, end, end);
    if values == [] || other == [] {
    } else {
      var next := start + |Base128(values[0])|;
      IntegerIsUnique(bytes, start, end, Decoded(values[0], next), Decoded(other[0], start + |Base128(other[0])|));
      SameReading(bytes, values[1..], other[1..], next, end);
      assert values == [values[0]] + values[1..] && other == [other[0]] + other[1..];
    }
  }

  // ---------- Dotted text ----------

  function Decimal(value: nat): string {
    var ds := ToDigits(value, 10);
    seq(|ds|, i requires 0 <= i < |ds| => ('0' as int + ds[i]) as char)
  }

  function Dotted(arcs: seq<nat>): string {
    if arcs == [] then ""
    else if |arcs| == 1 then Decimal(arcs[0])
    else Decimal(arcs[0]) + "." + Dotted(arcs[1..])
  }

  lemma DecimalIsInjective(a: nat, b: nat)
    requires Decimal(a) == Decimal(b)
    ensures a == b
  {
    hide FromDigits, ToDigits;
    var ds, es := ToDigits(a, 10), ToDigits(b, 10);
    assert |Decimal(a)| == |ds| && |Decimal(b)| == |es|;
    forall i | 0 <= i < |ds| ensures ds[i] == es[i] {
      assert Decimal(a)[i] == ('0' as int + ds[i]) as char && Decimal(b)[i] == ('0' as int + es[i]) as char;
    }
    assert ds == es;
    FromTo(a, 10);
    FromTo(b, 10);
  }

  lemma DecimalHasNoDot(a: nat)
    ensures Decimal(a) != "" && '.' !in Decimal(a)
  {
    hide ToDigits;
  }

  // The text before the first dot, when there is one, is the first arc's.
  lemma FirstArcText(a: string, b: string, rest: string, rest2: string)
    requires '.' !in a && '.' !in b && a + "." + rest == b + "." + rest2
    ensures a == b && rest == rest2
  {
    var s := a + "." + rest;
    assert forall i :: 0 <= i < |a| ==> s[i] == a[i];
    assert forall i :: 0 <= i < |b| ==> s[i] == b[i];
    assert s[|a|] == '.' && s[|b|] == '.';
    assert s[..|a|] == a && s[..|b|] == b && s[|a| + 1..] == rest && s[|b| + 1..] == rest2;
  }

  lemma DotsSeparateArcs(arcs: seq<nat>)
    ensures '.' in Dotted(arcs) <==> |arcs| >= 2
    ensures Dotted(arcs) == "" <==> arcs == []
  {
    hide Decimal;
    if arcs != [] {
      DecimalHasNoDot(arcs[0]);
    }
    if |arcs| >= 2 {
      assert Dotted(arcs)[|Decimal(arcs[0])|] == '.';
    }
  }

  lemma {:induction false} DottedIsInjective(arcs: seq<nat>, other: seq<nat>)
    requires Dotted(arcs) == Dotted(other)
    ensures arcs == other
    decreases |arcs|
  {
    hide Decimal;
    DotsSeparateArcs(arcs);
    DotsSeparateArcs(other);
    if |arcs| == 1 {
      DecimalIsInjective(arcs[0], other[0]);
    } else if |arcs| >= 2 {
      DecimalHasNoDot(arcs[0]);
      DecimalHasNoDot(other[0]);
      FirstArcText(Decimal(arcs[0]), Decimal(other[0]), Dotted(arcs[1..]), Dotted(other[1..]));
      DecimalIsInjective(arcs[0], other[0]);
      DottedIsInjective(arcs[1..], other[1..]);
      assert arcs == [arcs[0]] + arcs[1..] && other == [other[0]] + other[1..];
    }
  }

  // Comparing the dotted texts of two decoded identifiers is comparing their octets.
  lemma ComparingTextsComparesOctets(content: seq<Byte>, arcs: seq<nat>, content2: seq<Byte>, arcs2: seq<nat>)
    requires Encodes(content, arcs) && Encodes(content2, arcs2)
    ensures Dotted(arcs) == Dotted(arcs2) <==> content == content2
  {
    if Dotted(arcs) == Dotted(arcs2) {
      DottedIsInjective(arcs, arcs2);
    } else if content == content2 {
      EncodingIsInjective(content, arcs, arcs2);
    }
  }

  // ---------- The deployment environment extension ----------

  const DEPLOYMENT_ENVIRONMENT: seq<nat> := [1, 3, 6, 1, 4, 1, 57264, 1, 23]

  const DEPLOYMENT_ENVIRONMENT_OCTETS: seq<Byte> := [0x2b, 6, 1, 4, 1, 0x83, 0xbf, 0x30, 1, 23]

  lemma SmallBase128(value: nat)
    requires value < 128
    ensures Base128(value) == [value]
  {
  }

  lemma EnterpriseNumber()
    ensures Base128(57264) == [0x83, 0xbf, 0x30]
  {
    assert ToDigits(57264, 128) == ToDigits(447, 128) + [48];
    assert ToDigits(447, 128) == ToDigits(3, 128) + [63];
    assert ToDigits(57264, 128) == [3, 63, 48];
  }

  // The extension's identifier is recognised by exactly one octet string.
  lemma DeploymentEnvironmentOctets(content: seq<Byte>, arcs: seq<nat>)
    requires Encodes(content, arcs)
    ensures Dotted(arcs) == Dotted(DEPLOYMENT_ENVIRONMENT) <==> content == DEPLOYMENT_ENVIRONMENT_OCTETS
  {
    DeploymentEnvironmentEncodes();
    ComparingTextsComparesOctets(content, arcs, DEPLOYMENT_ENVIRONMENT_OCTETS, DEPLOYMENT_ENVIRONMENT);
  }

  lemma EncodeOneMore(value: nat, values: seq<nat>)
    ensures EncodeAll([value] + values) == Base128(value) + EncodeAll(values)
  {
    hide Base128;
    assert ([value] + values)[1..] == values;
  }

  lemma SmallOneMore(value: nat, values: seq<nat>)
    requires value < 128
    ensures EncodeAll([value] + values) == [value] + EncodeAll(values)
  {
    SmallBase128(value);
    EncodeOneMore(value, values);
  }

  lemma EnterpriseArcsEncode()
    ensures EncodeAll([57264, 1, 23]) == [0x83, 0xbf, 0x30, 1, 23]
  {
    hide Base128, EncodeAll;
    EnterpriseNumber();
    EncodeOneMore(57264, [1, 23]);
    SmallOneMore(1, [23]);
    SmallOneMore(23, []);
    assert EncodeAll([]) == [] by { EmptyEncodes(); }
    assert [57264] + [1, 23] == [57264, 1, 23] && [1] + [23] == [1, 23] && [23] + [] == [23];
  }

  lemma EmptyEncodes()
    ensures EncodeAll([]) == []
  {
  }

  lemma DeploymentEnvironmentEncodes()
    ensures Encodes(DEPLOYMENT_ENVIRONMENT_OCTETS, DEPLOYMENT_ENVIRONMENT)
  {
    hide Base128, EncodeAll;
    EnterpriseArcsEncode();
    SmallOneMore(1, [57264, 1, 23]);
    assert [1] + [57264, 1, 23] == [1, 57264, 1, 23];
    SmallOneMore(4, [1, 57264, 1, 23]);
    assert [4] + [1, 57264, 1, 23] == [4, 1, 57264, 1, 23];
    SmallOneMore(1, [4, 1, 57264, 1, 23]);
    assert [1] + [4, 1, 57264, 1, 23] == [1, 4, 1, 57264, 1, 23];
    SmallOneMore(6, [1, 4, 1, 57264, 1, 23]);
    assert [6] + [1, 4, 1, 57264, 1, 23] == [6, 1, 4, 1, 57264, 1, 23];
    SmallOneMore(43, [6, 1, 4, 1, 57264, 1, 23]);
    assert Subidentifiers(DEPLOYMENT_ENVIRONMENT) == [43] + [6, 1, 4, 1, 57264, 1, 23];
  }
}
