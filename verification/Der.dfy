// Reading DER: node headers and children (sections 8.1.3 and 10.1 of ITU-T X.690).
module Der {
  import opened Options
  import opened Digits

  type Byte = b: nat | b < 256

  const MAX_CHILDREN: nat := 4096

  datatype Node = Node(tag: Byte, contentStart: nat, contentEnd: nat)

  // ---------- Headers ----------

  // The definite length octets: short form below 128, otherwise the fewest octets of the long form.
  function LengthOctets(length: nat): seq<nat> {
    if length < 128 then [length] else [128 + |ToDigits(length, 256)|] + ToDigits(length, 256)
  }

  function Header(tag: Byte, length: nat): seq<nat> {
    [tag as nat] + LengthOctets(length)
  }

  // Tags of one octet, lengths of at most four.
  predicate Encodable(tag: Byte, length: nat) {
    tag % 32 != 31 && length < 0x1_0000_0000
  }

  // The encoding of `node` starts at `offset` and ends within `limit`.
  ghost predicate NodeAt(bytes: seq<Byte>, offset: int, limit: int, node: Node) {
    0 <= offset <= node.contentStart <= node.contentEnd <= limit <= |bytes| &&
    var length := node.contentEnd - node.contentStart;
    Encodable(node.tag, length) && bytes[offset..node.contentStart] == Header(node.tag, length)
  }

  // What the octets at `offset` look like when a node starts there.
  ghost predicate LooksLikeNode(bytes: seq<Byte>, offset: int, limit: int, node: Node) {
    0 <= offset && offset + 2 <= node.contentStart <= node.contentEnd <= limit <= |bytes| &&
    var first, length := bytes[offset + 1], node.contentEnd - node.contentStart;
    bytes[offset] == node.tag && node.tag % 32 != 31 &&
    if first < 128 then node.contentStart == offset + 2 && length == first
    else
      first - 128 <= 4 && node.contentStart == offset + 2 + (first - 128) && first > 128 && bytes[offset + 2] != 0 &&
      length >= 128 &&
      FromDigits(bytes[offset + 2..node.contentStart], 256) == length
  }

  lemma FourOctets(length: nat)
    ensures |ToDigits(length, 256)| <= 4 <==> length < 0x1_0000_0000
  {
    LengthIsExact(length, 256, 4);
    assert Power(256, 2) == 256 * 256;
    assert Power(256, 4) == 256 * 256 * Power(256, 2);
  }

  lemma NodeLooksLikeNode(bytes: seq<Byte>, offset: int, limit: int, node: Node)
    requires NodeAt(bytes, offset, limit, node)
    ensures LooksLikeNode(bytes, offset, limit, node)
  {
    hide FromDigits, ToDigits;
    var length := node.contentEnd - node.contentStart;
    var header := bytes[offset..node.contentStart];
    assert header == Header(node.tag, length);
    assert header[0] == bytes[offset] && header[1] == bytes[offset + 1];
    FourOctets(length);
    FromTo(length, 256);
    if length >= 128 {
      FirstDigit(length, 256);
      assert header[2] == bytes[offset + 2];
      assert bytes[offset + 2..node.contentStart] == header[2..] == ToDigits(length, 256);
    }
  }

  lemma LookalikeIsNode(bytes: seq<Byte>, offset: int, limit: int, node: Node)
    requires LooksLikeNode(bytes, offset, limit, node)
    ensures NodeAt(bytes, offset, limit, node)
  {
    hide FromDigits, ToDigits;
    var length := node.contentEnd - node.contentStart;
    var digits := bytes[offset + 2..node.contentStart];
    if bytes[offset + 1] < 128 {
      assert bytes[offset..node.contentStart] == [bytes[offset], bytes[offset + 1]];
    } else {
      ToFrom(digits, 256);
      FourOctets(length);
      var header := bytes[offset..node.contentStart];
      assert header == [bytes[offset]] + [bytes[offset + 1]] + digits;
      assert |digits| == bytes[offset + 1] - 128;
    }
  }

  // At most one node starts at any offset.
  lemma NodeIsUnique(bytes: seq<Byte>, offset: int, limit: int, node: Node, other: Node)
    requires NodeAt(bytes, offset, limit, node) && NodeAt(bytes, offset, limit, other)
    ensures node == other
  {
    NodeLooksLikeNode(bytes, offset, limit, node);
    NodeLooksLikeNode(bytes, offset, limit, other);
  }

  method BigEndian(bytes: seq<Byte>, start: nat, octets: nat) returns (value: nat)
    requires start + octets <= |bytes|
    ensures value == FromDigits(bytes[start..start + octets], 256)
  {
    value := 0;
    for index := 0 to octets
      invariant value == FromDigits(bytes[start..start + index], 256)
    {
      assert bytes[start..start + index + 1][..index] == bytes[start..start + index];
      value := value * 256 + bytes[start + index];
    }
  }

  // A node is read exactly when the octets at `offset` are the one encoding of its tag and length, and its content
  // fits.
  method ReadDerNode(bytes: seq<Byte>, offset: int, limit: int) returns (r: Option<Node>)
    ensures r.Some? ==> NodeAt(bytes, offset, limit, r.value)
    ensures r.None? ==> forall node :: !NodeAt(bytes, offset, limit, node)
  {
    hide FromDigits, Header;
    forall node | NodeAt(bytes, offset, limit, node) ensures LooksLikeNode(bytes, offset, limit, node) {
      NodeLooksLikeNode(bytes, offset, limit, node);
    }
    if offset < 0 || offset >= limit || limit > |bytes| { return None; }
    var at := offset;
    var tag := bytes[at];
    at := at + 1;
    if tag % 32 == 31 || at >= limit { return None; }
    var firstLength := bytes[at];
    at := at + 1;
    var length: nat := firstLength;
    if firstLength >= 128 {
      var lengthOctets := firstLength - 128;
      if lengthOctets == 0 || lengthOctets > 4 || at + lengthOctets > limit || bytes[at] == 0 { return None; }
      length := BigEndian(bytes, at, lengthOctets);
      at := at + lengthOctets;
      if length < 128 { return None; }
    }
    if at + length > limit { return None; }
    var node := Node(tag, at, at + length);
    LookalikeIsNode(bytes, offset, limit, node);
    r := Some(node);
  }

  // ---------- Children ----------

  // `nodes` follow one another from `start` to `stop`, each within `limit`.
  ghost predicate Tile(bytes: seq<Byte>, nodes: seq<Node>, start: int, stop: int, limit: int)
    decreases |nodes|
  {
    if nodes == [] then start == stop
    else NodeAt(bytes, start, limit, nodes[0]) && Tile(bytes, nodes[1..], nodes[0].contentEnd, stop, limit)
  }

  lemma {:induction false} TileOneMore(bytes: seq<Byte>, nodes: seq<Node>, start: int, stop: int, limit: int,
                                       next: Node)
    requires Tile(bytes, nodes, start, stop, limit) && NodeAt(bytes, stop, limit, next)
    ensures Tile(bytes, nodes + [next], start, next.contentEnd, limit)
    decreases |nodes|
  {
    if nodes == [] {
      assert (nodes + [next])[1..] == [];
    } else {
      assert (nodes + [next])[1..] == nodes[1..] + [next];
      TileOneMore(bytes, nodes[1..], nodes[0].contentEnd, stop, limit, next);
    }
  }

  // Any tiling up to `limit` continues the one found so far.
  lemma {:induction false} TilingContinues(bytes: seq<Byte>, found: seq<Node>, nodes: seq<Node>, start: int, stop: int,
                                           limit: int)
    requires Tile(bytes, found, start, stop, limit) && Tile(bytes, nodes, start, limit, limit) && stop < limit
    ensures |found| < |nodes| && found == nodes[..|found|] && NodeAt(bytes, stop, limit, nodes[|found|])
    decreases |found|
  {
    hide NodeAt;
    if found == [] {
    } else if nodes == [] {
      TileAdvances(bytes, found, start, stop, limit);
    } else {
      NodeIsUnique(bytes, start, limit, found[0], nodes[0]);
      TilingContinues(bytes, found[1..], nodes[1..], found[0].contentEnd, stop, limit);
      assert found == [found[0]] + found[1..];
    }
  }

  lemma {:induction false} TileAdvances(bytes: seq<Byte>, nodes: seq<Node>, start: int, stop: int, limit: int)
    requires Tile(bytes, nodes, start, stop, limit)
    ensures start <= stop && (nodes != [] ==> start < stop <= limit)
    decreases |nodes|
  {
    if nodes == [] {
    } else {
      NodeLooksLikeNode(bytes, start, limit, nodes[0]);
      TileAdvances(bytes, nodes[1..], nodes[0].contentEnd, stop, limit);
    }
  }

  // ---------- What the children encode ----------

  datatype Item = Item(tag: Byte, content: seq<Byte>)

  predicate AllEncodable(items: seq<Item>) {
    forall i :: 0 <= i < |items| ==> Encodable(items[i].tag, |items[i].content|)
  }

  function Encode(items: seq<Item>): seq<nat> {
    if items == [] then [] else Header(items[0].tag, |items[0].content|) + items[0].content + Encode(items[1..])
  }

  function ItemsOf(bytes: seq<Byte>, nodes: seq<Node>): (items: seq<Item>)
    requires forall i :: 0 <= i < |nodes| ==> nodes[i].contentStart <= nodes[i].contentEnd <= |bytes|
  {
    seq(|nodes|, i requires 0 <= i < |nodes| => Item(nodes[i].tag, bytes[nodes[i].contentStart..nodes[i].contentEnd]))
  }

  lemma {:induction false} TiledNodesAreInRange(bytes: seq<Byte>, nodes: seq<Node>, start: int, stop: int, limit: int)
    requires Tile(bytes, nodes, start, stop, limit)
    ensures forall i :: 0 <= i < |nodes| ==> nodes[i].contentStart <= nodes[i].contentEnd <= |bytes|
    decreases |nodes|
  {
    if nodes == [] {
    } else {
      TiledNodesAreInRange(bytes, nodes[1..], nodes[0].contentEnd, stop, limit);
    }
  }

  // Tiled content is the concatenation of its nodes' encodings.
  lemma {:induction false} TilesEncodeTheirItems(bytes: seq<Byte>, nodes: seq<Node>, start: int, stop: int)
    requires 0 <= start <= stop <= |bytes| && Tile(bytes, nodes, start, stop, stop)
    requires forall i :: 0 <= i < |nodes| ==> nodes[i].contentStart <= nodes[i].contentEnd <= |bytes|
    ensures AllEncodable(ItemsOf(bytes, nodes)) && bytes[start..stop] == Encode(ItemsOf(bytes, nodes))
    decreases |nodes|
  {
    hide Header, Encodable;
    var items := ItemsOf(bytes, nodes);
    if nodes == [] {
    } else {
      var node := nodes[0];
      NodeLooksLikeNode(bytes, start, stop, node);
      TileAdvances(bytes, nodes[1..], node.contentEnd, stop, stop);
      TilesEncodeTheirItems(bytes, nodes[1..], node.contentEnd, stop);
      assert items[1..] == ItemsOf(bytes, nodes[1..]);
      assert bytes[start..stop] == bytes[start..node.contentStart] + bytes[node.contentStart..node.contentEnd] +
               bytes[node.contentEnd..stop];
    }
  }

  // The children tile the parent's content, with no gap, overlap or overrun; they are refused only when no tiling
  // exists. What they stand for is then all that was encoded there.
  method DerChildren(bytes: seq<Byte>, parent: Node) returns (r: Option<seq<Node>>)
    requires parent.contentStart <= parent.contentEnd <= |bytes|
    ensures r.Some? ==>
              |r.value| <= MAX_CHILDREN &&
              Tile(bytes, r.value, parent.contentStart, parent.contentEnd, parent.contentEnd)
    ensures r.Some? ==>
              (forall i :: 0 <= i < |r.value| ==> r.value[i].contentStart <= r.value[i].contentEnd <= |bytes|) &&
              bytes[parent.contentStart..parent.contentEnd] == Encode(ItemsOf(bytes, r.value))
    ensures r.None? ==>
              forall nodes :: Tile(bytes, nodes, parent.contentStart, parent.contentEnd, parent.contentEnd) ==>
                |nodes| > MAX_CHILDREN
  {
    var limit := parent.contentEnd;
    var children: seq<Node> := [];
    var offset := parent.contentStart;
    while offset < limit
      invariant offset <= limit && |children| <= MAX_CHILDREN
      invariant Tile(bytes, children, parent.contentStart, offset, limit)
      decreases limit - offset
    {
      forall nodes | Tile(bytes, nodes, parent.contentStart, limit, limit)
        ensures |children| < |nodes| && NodeAt(bytes, offset, limit, nodes[|children|])
      {
        TilingContinues(bytes, children, nodes, parent.contentStart, offset, limit);
      }
      if |children| >= MAX_CHILDREN { return None; }
      var child := ReadDerNode(bytes, offset, limit);
      if child.None? { return None; }
      NodeLooksLikeNode(bytes, offset, limit, child.value);
      TileOneMore(bytes, children, parent.contentStart, offset, limit, child.value);
      children := children + [child.value];
      offset := child.value.contentEnd;
    }
    TiledNodesAreInRange(bytes, children, parent.contentStart, limit, limit);
    TilesEncodeTheirItems(bytes, children, parent.contentStart, limit);
    r := Some(children);
  }

  lemma SplitInThree(bytes: seq<nat>, start: nat, stop: nat, a: seq<nat>, b: seq<nat>, c: seq<nat>)
    requires start <= stop <= |bytes| && bytes[start..stop] == a + b + c
    ensures var i, j := start + |a|, start + |a| + |b|;
            j <= stop && bytes[start..i] == a && bytes[i..j] == b && bytes[j..stop] == c
  {
    var whole := a + b + c;
    assert |whole| == stop - start;
    assert forall k :: 0 <= k < |whole| ==> bytes[start + k] == whole[k];
    assert forall k :: 0 <= k < |a| ==> whole[k] == a[k];
    assert forall k :: 0 <= k < |b| ==> whole[|a| + k] == b[k];
    assert forall k :: 0 <= k < |c| ==> whole[|a| + |b| + k] == c[k];
  }

  function NodesOf(items: seq<Item>, start: nat): seq<Node> {
    if items == [] then []
    else
      var contentStart := start + |Header(items[0].tag, |items[0].content|)|;
      var contentEnd := contentStart + |items[0].content|;
      [Node(items[0].tag, contentStart, contentEnd)] + NodesOf(items[1..], contentEnd)
  }

  // Whatever was encoded is read back: the encoding of `items` is tiled by one node for each, and by nothing else.
  lemma {:induction false} EncodingIsTiled(bytes: seq<Byte>, items: seq<Item>, start: nat, stop: nat)
    requires start <= stop <= |bytes| && AllEncodable(items) && bytes[start..stop] == Encode(items)
    ensures Tile(bytes, NodesOf(items, start), start, stop, stop) && |NodesOf(items, start)| == |items|
    ensures forall i :: 0 <= i < |items| ==>
              var node := NodesOf(items, start)[i];
              node.tag == items[i].tag && node.contentStart <= node.contentEnd <= |bytes| &&
              bytes[node.contentStart..node.contentEnd] == items[i].content
    decreases |items|
  {
    hide Header, Encodable;
    if items == [] {
    } else {
      var item, node := items[0], NodesOf(items, start)[0];
      var header := Header(item.tag, |item.content|);
      SplitInThree(bytes, start, stop, header, item.content, Encode(items[1..]));
      EncodingIsTiled(bytes, items[1..], node.contentEnd, stop);
      assert NodesOf(items, start)[1..] == NodesOf(items[1..], node.contentEnd);
    }
  }

  lemma {:induction false} TilingIsUnique(bytes: seq<Byte>, nodes: seq<Node>, other: seq<Node>, start: int, stop: int)
    requires Tile(bytes, nodes, start, stop, stop) && Tile(bytes, other, start, stop, stop)
    ensures nodes == other
    decreases |nodes|
  {
    TileAdvances(bytes, nodes, start, stop, stop);
    TileAdvances(bytes, other, start, stop, stop);
    if nodes == [] || other == [] {
    } else {
      NodeIsUnique(bytes, start, stop, nodes[0], other[0]);
      TilingIsUnique(bytes, nodes[1..], other[1..], nodes[0].contentEnd, stop);
      assert nodes == [nodes[0]] + nodes[1..] && other == [other[0]] + other[1..];
    }
  }
}
