/**
  CBOR data items (RFC 8949) as the encoder library is asked to emit them: a stream of scalars,
  container openings and breaks, the tree it stands for, and a parser from one to the other.
 */
module Cbor {
  import opened Bytes

  datatype Scalar =
    | UInt(n: nat)
    | NInt(abs: nat)           // the negative number of this magnitude
    | Text(text: string)
    | ByteString(bytes: seq<byte>)
    | Bool(b: bool)
    | Simple(v: byte)
    | Float(bits: seq<byte>)
    | Double(bits: seq<byte>)

  /** `Map` holds keys and values in turn; nothing in the type makes their number even. */
  datatype Item =
    | Leaf(scalar: Scalar)
    | Array(elems: seq<Item>)
    | Map(entries: seq<Item>)
    | Map1(key: Item, val: Item)   // definite-length map of one pair

  datatype Token = Atom(scalar: Scalar) | OpenArray | OpenMap | OpenMap1 | Break

  function Serialize(i: Item): seq<Token>
    decreases i, 0
  {
    match i
    case Leaf(s) => [Atom(s)]
    case Array(es) => [OpenArray] + SerializeAll(es) + [Break]
    case Map(es) => [OpenMap] + SerializeAll(es) + [Break]
    case Map1(k, v) => [OpenMap1] + Serialize(k) + Serialize(v)
  }

  function SerializeAll(es: seq<Item>): seq<Token>
    decreases es, 1
  {
    if es == [] then [] else Serialize(es[0]) + SerializeAll(es[1..])
  }

  /** Section 3.2.2 of RFC 8949: a map with an odd number of items is not well-formed. */
  predicate WellFormed(i: Item)
    decreases i, 0
  {
    match i
    case Leaf(_) => true
    case Array(es) => AllWellFormed(es)
    case Map(es) => |es| % 2 == 0 && AllWellFormed(es)
    case Map1(k, v) => WellFormed(k) && WellFormed(v)
  }

  predicate AllWellFormed(es: seq<Item>)
    decreases es, 1
  {
    es == [] || (WellFormed(es[0]) && AllWellFormed(es[1..]))
  }

  lemma {:induction false} AllWellFormedEach(es: seq<Item>)
    ensures AllWellFormed(es) <==> forall i :: 0 <= i < |es| ==> WellFormed(es[i])
    decreases |es|
  {
    if es != [] {
      AllWellFormedEach(es[1..]);
      assert forall i :: 0 < i < |es| ==> es[i] == es[1..][i - 1];
    }
  }

  lemma {:induction false} AllWellFormedConcat(a: seq<Item>, b: seq<Item>)
    ensures AllWellFormed(a + b) <==> AllWellFormed(a) && AllWellFormed(b)
    decreases |a|
  {
    if a == [] {
      assert a + b == b;
    } else {
      assert (a + b)[1..] == a[1..] + b;
      AllWellFormedConcat(a[1..], b);
    }
  }

  /** Section 5.6 of RFC 8949: the keys of a map are distinct. */
  predicate UniqueKeys(entries: seq<Item>) {
    forall i, j :: 0 <= i < j < |entries| && i % 2 == 0 && j % 2 == 0 ==> entries[i] != entries[j]
  }

  // ---- parsing ----

  /** The first data item of a stream and what follows it. */
  function Parse(ts: seq<Token>): (r: Option<(Item, seq<Token>)>)
    ensures r.Some? ==> |r.value.1| < |ts|
    decreases |ts|, 0
  {
    if ts == [] then None else
      match ts[0]
      case Atom(s) => Some((Leaf(s), ts[1..]))
      case Break => None
      case OpenArray =>
        var es := ParseToBreak(ts[1..]);
        if es.None? then None else Some((Array(es.value.0), es.value.1))
      case OpenMap =>
        var es := ParseToBreak(ts[1..]);
        if es.None? || |es.value.0| % 2 != 0 then None else Some((Map(es.value.0), es.value.1))
      case OpenMap1 =>
        var k := Parse(ts[1..]);
        if k.None? then None else
          var v := Parse(k.value.1);
          if v.None? then None else Some((Map1(k.value.0, v.value.0), v.value.1))
  }

  function ParseToBreak(ts: seq<Token>): (r: Option<(seq<Item>, seq<Token>)>)
    ensures r.Some? ==> |r.value.1| < |ts|
    decreases |ts|, 1
  {
    if ts == [] then None
    else if ts[0] == Break then Some(([], ts[1..]))
    else
      var e := Parse(ts);
      if e.None? then None else
        var es := ParseToBreak(e.value.1);
        if es.None? then None else Some(([e.value.0] + es.value.0, es.value.1))
  }

  lemma {:induction false} SerializeConcat(a: seq<Item>, b: seq<Item>)
    ensures SerializeAll(a + b) == SerializeAll(a) + SerializeAll(b)
    decreases |a|
  {
    if a == [] {
      assert a + b == b;
    } else {
      assert (a + b)[1..] == a[1..] + b;
      SerializeConcat(a[1..], b);
    }
  }

  lemma SerializeOne(i: Item)
    ensures SerializeAll([i]) == Serialize(i)
  {
    assert [i][1..] == [];
  }

  /** What is emitted for a tree parses back to that tree if the tree is well-formed, and not at all otherwise. */
  lemma {:induction false} ParseSerialize(i: Item, rest: seq<Token>)
    ensures Parse(Serialize(i) + rest) == if WellFormed(i) then Some((i, rest)) else None
    decreases i, 0
  {
    match i
    case Leaf(s) =>
      assert (Serialize(i) + rest)[1..] == rest;
    case Array(es) =>
      assert (Serialize(i) + rest)[1..] == SerializeAll(es) + ([Break] + rest);
      ParseSerializeAll(es, rest);
    case Map(es) =>
      assert (Serialize(i) + rest)[1..] == SerializeAll(es) + ([Break] + rest);
      ParseSerializeAll(es, rest);
    case Map1(k, v) =>
      assert (Serialize(i) + rest)[1..] == Serialize(k) + (Serialize(v) + rest);
      ParseSerialize(k, Serialize(v) + rest);
      ParseSerialize(v, rest);
  }

  lemma {:induction false} ParseSerializeAll(es: seq<Item>, rest: seq<Token>)
    ensures ParseToBreak(SerializeAll(es) + ([Break] + rest)) == if AllWellFormed(es) then Some((es, rest)) else None
    decreases es, 1
  {
    var tail := [Break] + rest;
    if es == [] {
      assert SerializeAll(es) + tail == tail && tail[1..] == rest;
    } else {
      var more := SerializeAll(es[1..]) + tail;
      assert SerializeAll(es) + tail == Serialize(es[0]) + more;
      ParseSerialize(es[0], more);
      ParseSerializeAll(es[1..], rest);
      assert es == [es[0]] + es[1..];
    }
  }
}
