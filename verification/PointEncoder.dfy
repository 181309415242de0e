/**
  Data points (metrics and variables): the tree each becomes, and the loop that walks a non-critical
  read window once per point type and reports how many bytes of it may be released.
 */
module PointEncoder {
  import opened Bytes
  import opened Framing
  import opened Consumption
  import opened Cbor
  import opened Tlv
  import opened CborEncoder
  import opened LogEncoder

  // a data point with its tag field, and the same with a 32-byte string value
  const POINT_SIZE := 56
  const STR_POINT_SIZE := 80
  const POINT_TAG_AT := 4
  const KEY_AT := 20
  const KEY_END := 36
  const POINT_TS_AT := 40
  const VALUE_AT := 48

  const METRICS := 0
  const VARIABLES := 1

  // data types
  const TYPE_BOOL := 0
  const TYPE_INT := 1
  const TYPE_UINT := 2
  const TYPE_FLOAT := 3
  const TYPE_STR := 4
  const TYPE_IPV4 := 5
  const TYPE_MAC := 6

  function PointType(p: seq<byte>): nat
    requires |p| >= 4
  {
    LeValue(p[..4]) % U16
  }

  function DataType(p: seq<byte>): nat
    requires |p| >= 4
  {
    LeValue(p[..4]) / U16 % U16
  }

  function PathKey(p: seq<byte>): Item
    requires |p| >= POINT_SIZE
  {
    Array([Leaf(Text(if PointType(p) == METRICS then "M" else "P")),
           Leaf(Text(CText(p[POINT_TAG_AT..KEY_AT]))), Leaf(Text(CText(p[KEY_AT..KEY_END])))])
  }

  /** The value item; a data type the switch does not know gets none. */
  function Value(p: seq<byte>): seq<Item>
    requires |p| >= POINT_SIZE
  {
    var t, v := DataType(p), p[VALUE_AT..VALUE_AT + 4];
    if t == TYPE_BOOL then [Leaf(Bool(p[VALUE_AT] != 0))]
    else if t == TYPE_INT then [Leaf(SignedScalar(TwosComplement(LeValue(v), 4), 4))]
    else if t == TYPE_UINT then [Leaf(UInt(LeValue(v)))]
    else if t == TYPE_FLOAT then [Leaf(Float(v))]
    else if t == TYPE_IPV4 then [Leaf(ByteString(v))]
    else if t == TYPE_MAC then [Leaf(ByteString(p[VALUE_AT..VALUE_AT + 6]))]
    else []
  }

  function PointMap(p: seq<byte>, value: seq<Item>): Item
    requires |p| >= POINT_SIZE
  {
    Map([Leaf(Text("n")), PathKey(p), Leaf(Text("v"))] + value
        + [Leaf(Text("t")), Leaf(UInt(LeValue(p[POINT_TS_AT..VALUE_AT])))])
  }

  function StrValue(p: seq<byte>): seq<Item>
    requires |p| == STR_POINT_SIZE
  {
    [Leaf(Text(CText(p[VALUE_AT..])))]
  }

  /** What one record contributes to the pass for `kind`: a record of another size contributes nothing. */
  function PointItem(p: seq<byte>, kind: nat): seq<Item>
    requires |p| >= 4
  {
    if PointType(p) != kind then []
    else if DataType(p) == TYPE_STR && |p| == STR_POINT_SIZE then [PointMap(p, StrValue(p))]
    else if |p| == POINT_SIZE then [PointMap(p, Value(p))]
    else []
  }

  /** Metrics and variables are written with at least their type fields, and fit the ring. */
  predicate PointsOk(rs: seq<Record>) {
    forall i :: 0 <= i < |rs| ==> 4 <= |rs[i].payload| <= 0x8000
  }

  function PointItems(rs: seq<Record>, kind: nat): seq<Item>
    requires PointsOk(rs)
  {
    if rs == [] then [] else PointItem(rs[0].payload, kind) + PointItems(rs[1..], kind)
  }

  lemma {:induction false} PointItemsSnoc(rs: seq<Record>, k: nat, kind: nat)
    requires PointsOk(rs) && k < |rs|
    ensures PointItems(rs[..k + 1], kind) == PointItems(rs[..k], kind) + PointItem(rs[k].payload, kind)
    decreases k
  {
    hide PointItem;
    assert rs[..k + 1][1..] == rs[1..][..k];
    if k > 0 {
      assert rs[..k][1..] == rs[1..][..k - 1];
      PointItemsSnoc(rs[1..], k - 1, kind);
    }
  }

  method EncodeKey(enc: Encoder, p: seq<byte>)
    requires enc.Ok() && |p| >= POINT_SIZE
    modifies enc
    ensures enc.Ok() && enc.open == Push(old(enc.open), [Leaf(Text("n")), PathKey(p), Leaf(Text("v"))])
  {
    hide Emitted, LeValue, CText;
    ghost var fs := enc.open;
    enc.Put(Text("n"));
    ghost var outer := enc.open;
    enc.Open(OfArray);
    enc.Put(Text(if PointType(p) == METRICS then "M" else "P"));
    enc.Put(Text(CText(p[POINT_TAG_AT..KEY_AT])));
    enc.Put(Text(CText(p[KEY_AT..KEY_END])));
    ghost var key := enc.open[|fs|].items;
    assert Array(key) == PathKey(p);
    assert enc.open == outer + [Level(OfArray, key)];
    enc.Close(OfArray);
    CloseInside(outer, OfArray, key);
    enc.Put(Text("v"));
    Gained(fs, enc.open, [Leaf(Text("n")), PathKey(p), Leaf(Text("v"))]);
  }

  /** `encode_str_data_pt`. */
  method EncodeStrPoint(enc: Encoder, p: seq<byte>)
    requires enc.Ok() && |p| == STR_POINT_SIZE
    modifies enc
    ensures enc.Ok() && enc.open == Push(old(enc.open), [PointMap(p, StrValue(p))])
  {
    hide Emitted, LeValue, CText, PathKey;
    ghost var fs := enc.open;
    enc.Open(OfMap);
    EncodeKey(enc, p);
    enc.Put(Text(CText(p[VALUE_AT..])));
    enc.PutPair("t", UInt(LeValue(p[POINT_TS_AT..VALUE_AT])));
    ghost var all := enc.open[|fs|].items;
    assert Map(all) == PointMap(p, StrValue(p));
    assert enc.open == fs + [Level(OfMap, all)];
    enc.Close(OfMap);
    CloseInside(fs, OfMap, all);
  }

  /** The switch over the data type. */
  method EncodeValueOf(enc: Encoder, p: seq<byte>)
    requires enc.Ok() && |p| == POINT_SIZE
    modifies enc
    ensures enc.Ok() && enc.open == Push(old(enc.open), Value(p))
  {
    hide Emitted, LeValue, SignedScalar, TwosComplement;
    var t, v := DataType(p), p[VALUE_AT..VALUE_AT + 4];
    if t == TYPE_BOOL {
      enc.Put(Bool(p[VALUE_AT] != 0));
    } else if t == TYPE_INT {
      enc.Put(SignedScalar(TwosComplement(LeValue(v), 4), 4));
    } else if t == TYPE_UINT {
      enc.Put(UInt(LeValue(v)));
    } else if t == TYPE_FLOAT {
      enc.Put(Float(v));
    } else if t == TYPE_IPV4 {
      enc.Put(ByteString(v));
    } else if t == TYPE_MAC {
      enc.Put(ByteString(p[VALUE_AT..VALUE_AT + 6]));
    } else {
      Gained(enc.open, enc.open, []);
    }
  }

  /** `encode_data_pt`. */
  method EncodePoint(enc: Encoder, p: seq<byte>)
    requires enc.Ok() && |p| == POINT_SIZE
    modifies enc
    ensures enc.Ok() && enc.open == Push(old(enc.open), [PointMap(p, Value(p))])
  {
    hide Emitted, LeValue, PathKey, Value;
    ghost var fs := enc.open;
    enc.Open(OfMap);
    EncodeKey(enc, p);
    EncodeValueOf(enc, p);
    enc.PutPair("t", UInt(LeValue(p[POINT_TS_AT..VALUE_AT])));
    ghost var all := enc.open[|fs|].items;
    assert Map(all) == PointMap(p, Value(p));
    assert enc.open == fs + [Level(OfMap, all)];
    enc.Close(OfMap);
    CloseInside(fs, OfMap, all);
  }

  /** The body of the loop for one whole record of the window. */
  method EncodeRecord(enc: Encoder, p: seq<byte>, kind: nat)
    requires enc.Ok() && |p| >= 4
    modifies enc
    ensures enc.Ok() && enc.open == Push(old(enc.open), PointItem(p, kind))
  {
    hide PointMap, Value, StrValue, LeValue, Emitted;
    ghost var fs := enc.open;
    var typeInt := LeValue(p[..4]);
    if typeInt % U16 == kind {
      var dataType := typeInt / U16 % U16;
      if dataType == TYPE_STR && |p| == STR_POINT_SIZE {
        EncodeStrPoint(enc, p);
      } else if |p| == POINT_SIZE {
        EncodePoint(enc, p);
      }
    }
    if PointItem(p, kind) == [] {
      Gained(fs, fs, []);
    }
  }

  /**
    `encode_data_points`: one pass over the window for one point type. A window of at most a header's
    length emits nothing at all. `rs` is what is queued; the window may end inside a record.
   */
  method EncodeDataPoints(enc: Encoder, data: seq<byte>, key: string, kind: nat, ghost rs: seq<Record>)
    returns (consumed: nat)
    requires enc.Ok() && PointsOk(rs) && |data| <= |Flatten(rs)| && data == Flatten(rs)[..|data|]
    modifies enc
    ensures enc.Ok()
    ensures |data| <= HEADER ==> consumed == 0 && enc.open == old(enc.open)
    ensures |data| > HEADER ==>
      var k := Run(rs, HEADER, data[0], |data|);
      && consumed == Total(rs[..k], HEADER)
      && enc.open == Push(old(enc.open), [Leaf(Text(key)), Array(PointItems(rs[..k], kind))])
  {
    hide Emitted, PointItems, PointItem, Flatten, Run, Total, Push, CloseLast, LeValue, Walking;
    if |data| <= HEADER {
      return 0;
    }
    ghost var fs := enc.open;
    enc.Put(Text(key));
    ghost var outer := enc.open;
    enc.Open(OfArray);
    var metaIdx := data[0];
    var i, size: nat := 0, |data|;
    ghost var j := 0;
    ghost var items: seq<Item> := [];
    WalkStart(rs, data, kind);
    while size > HEADER
      invariant enc.Ok() && enc.open == outer + [Level(OfArray, items)]
      invariant i + size == |data| && j <= |rs| && Walking(rs, data, i, j) && items == PointItems(rs[..j], kind)
      decreases size
    {
      WalkStep(rs, data, i, j);
      if data[i] != metaIdx {
        break;
      }
      i := i + 1;
      size := size - 1;
      var len := LeValue(data[i..i + HEADER]);
      if (HEADER + len) % U32 > size || len == 0 {  // cut or invalid record
        i := i - 1;
        size := size + 1;
        break;
      }
      PointItemsSnoc(rs, j, kind);
      PushInside(outer, OfArray, items, PointItem(rs[j].payload, kind));
      EncodeRecord(enc, data[i + HEADER..i + HEADER + len], kind);
      items := PointItems(rs[..j + 1], kind);
      size := size - (HEADER + len);
      i := i + (HEADER + len);
      j := j + 1;
    }
    WalkEnd(rs, data, i, j);
    enc.Close(OfArray);
    CloseInside(outer, OfArray, items);
    PushPush(fs, [Leaf(Text(key))], [Array(items)]);
    assert [Leaf(Text(key))] + [Array(items)] == [Leaf(Text(key)), Array(items)];
    consumed := i;
  }

  /** Where the loop is: `j` whole records of the first one's boot lie behind `i`. */
  ghost predicate Walking(rs: seq<Record>, data: seq<byte>, i: nat, j: nat) {
    && j <= |rs| && i <= |data| && 0 < |data| && i == Total(rs[..j], HEADER)
    && |data| - i <= |Flatten(rs[j..])| && data[i..] == Flatten(rs[j..])[..|data| - i]
    && Run(rs, HEADER, data[0], |data|) == j + Run(rs[j..], HEADER, data[0], |data| - i)
  }

  lemma WalkStart(rs: seq<Record>, data: seq<byte>, kind: nat)
    requires 0 < |data| <= |Flatten(rs)| && data == Flatten(rs)[..|data|]
    ensures Walking(rs, data, 0, 0) && rs[..0] == [] && PointItems([], kind) == []
  {
    assert rs[0..] == rs && data[0..] == data;
  }

  lemma WalkStep(rs: seq<Record>, data: seq<byte>, i: nat, j: nat)
    requires PointsOk(rs) && Walking(rs, data, i, j) && |data| - i > HEADER
    ensures j < |rs| && data[i] == rs[j].meta && LeValue(data[i + 1..i + 1 + HEADER]) == |rs[j].payload|
    ensures var next := i + Size(rs[j], HEADER);
      data[i] == data[0] && next <= |data| ==>
        data[i + 1 + HEADER..next] == rs[j].payload && Walking(rs, data, next, j + 1)
  {
    hide LeValue, Flatten, Run, Total;
    NextPoint(rs, j, data[i..]);
    RunPoint(rs, j, data[0], |data| - i);
    TotalTake(rs, HEADER, j);
    SliceOfDrop(data, i, 1, 1 + HEADER);
    if i + Size(rs[j], HEADER) <= |data| {
      SliceOfDrop(data, i, 1 + HEADER, Size(rs[j], HEADER));
    }
  }

  lemma WalkEnd(rs: seq<Record>, data: seq<byte>, i: nat, j: nat)
    requires PointsOk(rs) && Walking(rs, data, i, j)
    requires |data| - i <= HEADER
      || (j < |rs| && (rs[j].meta != data[0] || |data| - i < Size(rs[j], HEADER)))
    ensures j == Run(rs, HEADER, data[0], |data|) && i == Total(rs[..j], HEADER)
  {
    RunPoint(rs, j, data[0], |data| - i);
  }

  /** What the header at the head of the rest of the window says, and what follows a whole record. */
  lemma NextPoint(rs: seq<Record>, j: nat, w: seq<byte>)
    requires PointsOk(rs) && j <= |rs| && HEADER < |w| <= |Flatten(rs[j..])| && w == Flatten(rs[j..])[..|w|]
    ensures j < |rs| && w[0] == rs[j].meta && LeValue(w[1..1 + HEADER]) == |rs[j].payload|
    ensures var len := Size(rs[j], HEADER);
      len <= |w| ==>
        && w[1 + HEADER..len] == rs[j].payload
        && |w| - len <= |Flatten(rs[j + 1..])| && w[len..] == Flatten(rs[j + 1..])[..|w| - len]
  {
    assert rs[j..][1..] == rs[j + 1..];
    var f, rest := Frame(rs[j]), Flatten(rs[j + 1..]);
    assert Flatten(rs[j..]) == f + rest;
    HeaderReadsBack(rs[j], rest);
    assert w[1..1 + HEADER] == (f + rest)[1..1 + HEADER];
    if |f| <= |w| {
      assert w == f + rest[..|w| - |f|];
    }
  }

  lemma RunPoint(rs: seq<Record>, j: nat, meta: byte, n: nat)
    requires PointsOk(rs) && j <= |rs|
    ensures Run(rs[j..], HEADER, meta, n) ==
      if n <= HEADER || j == |rs| || rs[j].meta != meta || n < Size(rs[j], HEADER) then 0
      else 1 + Run(rs[j + 1..], HEADER, meta, n - Size(rs[j], HEADER))
  {
    if j < |rs| {
      assert rs[j..][1..] == rs[j + 1..];
    }
  }

  // ---- what the two passes send together ----

  /** A record one of the two passes turns into an item. */
  predicate Sendable(p: seq<byte>)
    requires |p| >= 4
  {
    PointType(p) in {METRICS, VARIABLES} && (|p| == POINT_SIZE || (DataType(p) == TYPE_STR && |p| == STR_POINT_SIZE))
  }

  /** Sendable records only, in queue order, each as the item it is sent as. */
  function SentItems(rs: seq<Record>): seq<Item>
    requires PointsOk(rs)
  {
    if rs == [] then [] else
      var p := rs[0].payload;
      (if Sendable(p) then PointItem(p, PointType(p)) else []) + SentItems(rs[1..])
  }

  /** The metrics pass and the variables pass send every sendable consumed record exactly once. */
  lemma {:induction false} PassesPartition(rs: seq<Record>)
    requires PointsOk(rs)
    ensures multiset(PointItems(rs, METRICS)) + multiset(PointItems(rs, VARIABLES)) == multiset(SentItems(rs))
    ensures |SentItems(rs)| == CountSendable(rs)
    decreases |rs|
  {
    hide PointMap, Value, StrValue;
    if rs != [] {
      PassesPartition(rs[1..]);
      var p := rs[0].payload;
      var m, v := PointItem(p, METRICS), PointItem(p, VARIABLES);
      assert PointItems(rs, METRICS) == m + PointItems(rs[1..], METRICS);
      assert PointItems(rs, VARIABLES) == v + PointItems(rs[1..], VARIABLES);
      assert !Sendable(p) ==> m == [] && v == [];
    }
  }

  function CountSendable(rs: seq<Record>): nat
    requires PointsOk(rs)
  {
    if rs == [] then 0 else (if Sendable(rs[0].payload) then 1 else 0) + CountSendable(rs[1..])
  }

  // ---- which points keep the message well-formed ----

  /** The data types the switch has a value for; strings are the larger record. */
  predicate KnownType(p: seq<byte>)
    requires |p| >= 4
  {
    DataType(p) in {TYPE_BOOL, TYPE_INT, TYPE_UINT, TYPE_FLOAT, TYPE_IPV4, TYPE_MAC}
    || (DataType(p) == TYPE_STR && |p| == STR_POINT_SIZE)
  }

  /** A point of unknown type is sent as a map with a key and no value, which is not well-formed. */
  lemma PointWellFormed(p: seq<byte>, kind: nat)
    requires |p| >= 4 && kind in {METRICS, VARIABLES}
    ensures AllWellFormed(PointItem(p, kind)) <==> (PointType(p) == kind && Sendable(p) ==> KnownType(p))
  {
    hide CText, LeValue, SignedScalar;
    if PointType(p) == kind && Sendable(p) {
      var value := if DataType(p) == TYPE_STR && |p| == STR_POINT_SIZE then StrValue(p) else Value(p);
      assert PointItem(p, kind) == [PointMap(p, value)];
      assert [PointMap(p, value)][1..] == [];
      PathKeyWellFormed(p);
      PairsWellFormed(PathKey(p), value, [Leaf(Text("t")), Leaf(UInt(LeValue(p[POINT_TS_AT..VALUE_AT])))]);
    }
  }

  lemma PathKeyWellFormed(p: seq<byte>)
    requires |p| >= POINT_SIZE
    ensures WellFormed(PathKey(p))
  {
    hide CText, LeValue;
    AllWellFormedEach(PathKey(p).elems);
  }

  lemma PairsWellFormed(key: Item, value: seq<Item>, rest: seq<Item>)
    requires WellFormed(key) && |value| <= 1 && (forall i :: 0 <= i < |value| ==> value[i].Leaf?)
    requires |rest| == 2 && rest[0].Leaf? && rest[1].Leaf?
    ensures WellFormed(Map([Leaf(Text("n")), key, Leaf(Text("v"))] + value + rest)) <==> |value| == 1
  {
    var all := [Leaf(Text("n")), key, Leaf(Text("v"))] + value + rest;
    AllWellFormedEach(all);
  }

  predicate AllKnown(rs: seq<Record>)
    requires PointsOk(rs)
  {
    forall i :: 0 <= i < |rs| && Sendable(rs[i].payload) ==> KnownType(rs[i].payload)
  }

  lemma {:induction false} PointItemsWellFormed(rs: seq<Record>)
    requires PointsOk(rs)
    ensures AllWellFormed(PointItems(rs, METRICS)) && AllWellFormed(PointItems(rs, VARIABLES)) <==> AllKnown(rs)
    decreases |rs|
  {
    hide PointItem, Sendable, KnownType;
    if rs != [] {
      PointItemsWellFormed(rs[1..]);
      var p := rs[0].payload;
      PointWellFormed(p, METRICS);
      PointWellFormed(p, VARIABLES);
      AllWellFormedConcat(PointItem(p, METRICS), PointItems(rs[1..], METRICS));
      AllWellFormedConcat(PointItem(p, VARIABLES), PointItems(rs[1..], VARIABLES));
      SendableKind(p);
      assert AllKnown(rs) <==> (Sendable(p) ==> KnownType(p)) && AllKnown(rs[1..]) by {
        assert forall i :: 0 < i < |rs| ==> rs[i] == rs[1..][i - 1];
      }
    }
  }

  lemma SendableKind(p: seq<byte>)
    requires |p| >= 4
    ensures Sendable(p) ==> PointType(p) == METRICS || PointType(p) == VARIABLES
  {
  }
}
