/**
  Log records and data points as a reader of the message finds them: by the names of the keys in the tree, and by the
  layout of the structures in the record. Neither goes through the functions that build the tree.
 */
module RecordReader {
  import opened Bytes
  import opened Framing
  import opened Cbor
  import opened CborReader
  import opened Tlv
  import opened FormatScanner
  import opened LogEncoder
  import opened PointEncoder

  // ---- numbers and texts in records ----

  /** An unsigned 32-bit field, least significant byte first. */
  function U32At(r: seq<byte>, i: nat): nat
    requires i + 4 <= |r|
  {
    r[i] as nat + 256 * r[i + 1] as nat + 65536 * r[i + 2] as nat + 16777216 * r[i + 3] as nat
  }

  function U64At(r: seq<byte>, i: nat): nat
    requires i + 8 <= |r|
  {
    U32At(r, i) + 4294967296 * U32At(r, i + 4)
  }

  function U16At(r: seq<byte>, i: nat): nat
    requires i + 2 <= |r|
  {
    r[i] as nat + 256 * r[i + 1] as nat
  }

  lemma FourBytes(s: seq<byte>)
    requires |s| == 4
    ensures LeValue(s) == U32At(s, 0)
  {
    assert s[1..][1..] == s[2..] && s[2..][1..] == s[3..] && s[3..][1..] == [];
    assert LeValue(s[3..]) == s[3];
    assert LeValue(s[2..]) == s[2] as nat + 256 * s[3] as nat;
    assert LeValue(s[1..]) == s[1] + 256 * LeValue(s[2..]);
  }

  lemma {:induction false} LeConcat(a: seq<byte>, b: seq<byte>)
    ensures LeValue(a + b) == LeValue(a) + Pow256(|a|) * LeValue(b)
    decreases |a|
  {
    if a == [] {
      assert a + b == b;
    } else {
      assert (a + b)[1..] == a[1..] + b;
      LeConcat(a[1..], b);
      Distribute(LeValue(a[1..]), Pow256(|a| - 1), LeValue(b));
    }
  }

  lemma Distribute(x: nat, p: nat, y: nat)
    ensures 256 * (x + p * y) == 256 * x + (256 * p) * y
  {
  }

  lemma FieldIs32(r: seq<byte>, i: nat)
    requires i + 4 <= |r|
    ensures LeValue(r[i..i + 4]) == U32At(r, i)
  {
    FourBytes(r[i..i + 4]);
  }

  lemma FieldIs64(r: seq<byte>, i: nat)
    requires i + 8 <= |r|
    ensures LeValue(r[i..i + 8]) == U64At(r, i)
  {
    assert r[i..i + 8] == r[i..i + 4] + r[i + 4..i + 8];
    LeConcat(r[i..i + 4], r[i + 4..i + 8]);
    FieldIs32(r, i);
    FieldIs32(r, i + 4);
    Pow256Values();
    hide Pow256, LeValue;
  }

  /** `t` is the text in a character array, up to its first NUL. */
  predicate IsText(t: string, s: seq<byte>) {
    && |t| <= |s| && (forall i :: 0 <= i < |t| ==> s[i] != 0 && t[i] == s[i] as char)
    && (|t| < |s| ==> s[|t|] == 0)
  }

  lemma {:induction false} CTextIs(s: seq<byte>)
    ensures IsText(CText(s), s)
    decreases |s|
  {
    if s != [] && s[0] != 0 {
      CTextIs(s[1..]);
      var t := CText(s);
      assert t[1..] == CText(s[1..]);
      assert forall i :: 0 < i < |t| ==> t[i] == t[1..][i - 1] && s[i] == s[1..][i - 1];
    }
  }

  predicate IsTextItem(i: Option<Item>, s: seq<byte>) {
    i.Some? && i.value.Leaf? && i.value.scalar.Text? && IsText(i.value.scalar.text, s)
  }

  // ---- log records ----

  /**
    The map of one log record. In the structure: severity at 0, program counter at 4, time at 8, tag at 16, address of
    the format at 32, arguments at 36, their length at 100, task name at 101.
   */
  predicate IsLog(i: Item, r: seq<byte>)
    requires |r| == 120
  {
    && i.Map?
    && Get(i, "ts") == Some(Leaf(UInt(U64At(r, 8))))
    && IsTextItem(Get(i, "tag"), r[16..32])
    && Get(i, "pc") == Some(Leaf(UInt(U32At(r, 4))))
    && Get(i, "ro") == Some(Leaf(UInt(U32At(r, 32))))
    && (r[100] <= 64 && ParseArgs(r[36..36 + r[100] as int]).Some? ==>
          var args := ParseArgs(r[36..36 + r[100] as int]).value;
          AllWellTyped(args) && Get(i, "av") == Some(Array(RenderAll(args))))
    && if r[101] == 0 then Get(i, "task") == None else IsTextItem(Get(i, "task"), r[101..117])
  }

  lemma LogKeysDiffer()
    ensures "ts" != "tag" && "ts" != "pc" && "ts" != "ro" && "ts" != "av" && "ts" != "task"
    ensures "tag" != "pc" && "tag" != "ro" && "tag" != "av" && "tag" != "task"
    ensures "pc" != "ro" && "pc" != "av" && "pc" != "task" && "ro" != "av" && "ro" != "task" && "av" != "task"
  {
    assert "ts"[0] != "pc"[0] && "ts"[0] != "ro"[0] && "ts"[0] != "av"[0];
    assert "pc"[0] != "ro"[0] && "pc"[0] != "av"[0] && "ro"[0] != "av"[0];
  }

  lemma LogFieldsAre(r: seq<byte>)
    requires |r| == 120
    ensures var es := LogHead(r);
      && |es| == 8 && es[0] == Leaf(Text("ts")) && es[1] == Leaf(UInt(U64At(r, 8)))
      && es[2] == Leaf(Text("tag")) && IsTextItem(Some(es[3]), r[16..32])
      && es[4] == Leaf(Text("pc")) && es[5] == Leaf(UInt(U32At(r, 4)))
      && es[6] == Leaf(Text("ro")) && es[7] == Leaf(UInt(U32At(r, 32)))
    ensures LogTask(r) == if r[101] == 0 then [] else [Leaf(Text("task")), Leaf(Text(CText(r[101..117])))]
    ensures IsText(CText(r[101..117]), r[101..117])
  {
    hide LeValue, U32At, U64At;
    FieldIs64(r, 8);
    FieldIs32(r, 4);
    FieldIs32(r, 32);
    CTextIs(r[16..32]);
    CTextIs(r[101..117]);
    assert r[101..117][0] == r[101];
  }

  lemma LogReadsBack(r: seq<byte>)
    requires LogOk(r)
    ensures IsLog(LogItem(r), r)
  {
    hide CText, ParseArgs, RenderAll, WellTyped, LogHead, LogTask, U32At, U64At, IsText;
    LogKeysDiffer();
    LogFieldsAre(r);
    var es := LogItem(r).entries;
    var av := Array(RenderAll(Args(r).value));
    assert es == LogHead(r) + [Leaf(Text("av")), av] + LogTask(r);
    LookupAt(es, "ts", 0);
    LookupAt(es, "tag", 1);
    LookupAt(es, "pc", 2);
    LookupAt(es, "ro", 3);
    LookupAt(es, "av", 4);
    if r[101] == 0 {
      LookupNone(es, "task");
    } else {
      LookupAt(es, "task", 5);
    }
  }

  /** The records of one severity, in their order. */
  function OfSeverity(rs: seq<Record>, severity: byte): seq<Record> {
    if rs == [] then []
    else (if |rs[0].payload| > 0 && rs[0].payload[0] == severity then [rs[0]] else []) + OfSeverity(rs[1..], severity)
  }

  /** One item for each of these log records, in their order. */
  predicate AreLogs(items: seq<Item>, rs: seq<Record>) {
    |items| == |rs| && forall i :: 0 <= i < |rs| ==> |rs[i].payload| == 120 && IsLog(items[i], rs[i].payload)
  }

  lemma {:induction false} LogsReadBack(rs: seq<Record>, severity: byte)
    requires LogsOk(rs)
    ensures AreLogs(LogItems(rs, severity), OfSeverity(rs, severity))
    decreases |rs|
  {
    hide IsLog, LogItem, Args;
    if rs != [] {
      assert LogOk(rs[0].payload);
      LogsReadBack(rs[1..], severity);
      LogReadsBack(rs[0].payload);
    }
  }

  // ---- data points ----

  /**
    The value of a point. In the structure: the kind at 0, the data type at 2, tag at 4, key at 20, time at 40, value
    at 48. Data types are 0 for booleans, 1 and 2 for signed and unsigned integers, 3 for floating point, 4 for strings,
    5 and 6 for IPv4 and hardware addresses.
   */
  predicate IsValue(i: Option<Item>, p: seq<byte>)
    requires |p| == 56 || |p| == 80
  {
    && i.Some? && i.value.Leaf?
    && var s := i.value.scalar;
       match U16At(p, 2)
       case 0 => s == Scalar.Bool(p[48] != 0)
       case 1 =>
         var n := if p[51] < 128 then U32At(p, 48) else U32At(p, 48) - 4294967296;
         (s.UInt? || s.NInt?) && (NumberOf(s) == n <==> n != -2147483648)
       case 2 => s == UInt(U32At(p, 48))
       case 3 => s == Scalar.Float(p[48..52])
       case 4 => |p| == 80 && s.Text? && IsText(s.text, p[48..80])
       case 5 => s == ByteString(p[48..52])
       case 6 => s == ByteString(p[48..54])
       case _ => false
  }

  predicate IsPath(i: Option<Item>, p: seq<byte>)
    requires |p| == 56 || |p| == 80
  {
    && i.Some? && i.value.Array? && |i.value.elems| == 3
    && i.value.elems[0] == Leaf(Text(if U16At(p, 0) == 0 then "M" else "P"))
    && IsTextItem(Some(i.value.elems[1]), p[4..20]) && IsTextItem(Some(i.value.elems[2]), p[20..36])
  }

  predicate IsPoint(i: Item, p: seq<byte>)
    requires |p| == 56 || |p| == 80
  {
    && i.Map? && IsPath(Get(i, "n"), p) && Get(i, "t") == Some(Leaf(UInt(U64At(p, 40))))
    && IsValue(Get(i, "v"), p)
  }

  /** Points of the size that goes with their data type; larger ones are strings. */
  predicate Wanted(p: seq<byte>) {
    |p| == 56 || (|p| == 80 && U16At(p, 2) == 4)
  }

  /** The data types that have a value. */
  predicate HasValue(p: seq<byte>)
    requires |p| == 56 || |p| == 80
  {
    U16At(p, 2) in {0, 1, 2, 3, 5, 6} || (U16At(p, 2) == 4 && |p| == 80)
  }

  lemma TypesAre(p: seq<byte>)
    requires |p| >= 4
    ensures PointType(p) == U16At(p, 0) && DataType(p) == U16At(p, 2)
  {
    FieldIs32(p, 0);
    assert p[0..4] == p[..4];
    hide LeValue;
    var low, high := U16At(p, 0), U16At(p, 2);
    assert U32At(p, 0) == low + 65536 * high;
  }

  lemma SignedFieldIs(p: seq<byte>, i: nat)
    requires i + 4 <= |p|
    ensures TwosComplement(LeValue(p[i..i + 4]), 4)
         == if p[i + 3] < 128 then U32At(p, i) else U32At(p, i) - 4294967296
  {
    FieldIs32(p, i);
    Pow256Values();
    hide LeValue, Pow256;
  }

  lemma PathIs(p: seq<byte>)
    requires |p| == 56 || |p| == 80
    ensures IsPath(Some(PathKey(p)), p)
  {
    hide LeValue, CText, IsText, U16At, PointType;
    TypesAre(p);
    CTextIs(p[4..20]);
    CTextIs(p[20..36]);
  }

  lemma ValueIs(p: seq<byte>)
    requires |p| == 56 && HasValue(p)
    ensures |Value(p)| == 1 && IsValue(Some(Value(p)[0]), p)
  {
    hide LeValue, IsText, U16At, U32At, SignedScalar, TwosComplement, DataType;
    TypesAre(p);
    FieldIs32(p, 48);
    SignedFieldIs(p, 48);
    if U16At(p, 2) == 1 {
      SignedIs(p);
    }
  }

  lemma SignedIs(p: seq<byte>)
    requires |p| == 56
    ensures var v := TwosComplement(LeValue(p[48..52]), 4);
      var s := SignedScalar(v, 4);
      (s.UInt? || s.NInt?) && (NumberOf(s) == v <==> v != -2147483648)
  {
    var v := TwosComplement(LeValue(p[48..52]), 4);
    LeValueBound(p[48..52]);
    Pow256Values();
    OnlyLeastIntIsLost(v, 4);
    hide LeValue, Pow256;
  }

  lemma PointMapReadsBack(p: seq<byte>, v: Item)
    requires |p| == 56 || |p| == 80
    ensures var i := PointMap(p, [v]);
      && Get(i, "n") == Some(PathKey(p)) && Get(i, "v") == Some(v)
      && Get(i, "t") == Some(Leaf(UInt(U64At(p, 40))))
  {
    hide PathKey, LeValue, U64At;
    FieldIs64(p, 40);
    var es := PointMap(p, [v]).entries;
    assert "n"[0] != "v"[0] && "n"[0] != "t"[0] && "v"[0] != "t"[0];
    LookupAt(es, "n", 0);
    LookupAt(es, "v", 1);
    LookupAt(es, "t", 2);
  }

  /** Every point that is sent and has a value reads back as what it says. */
  lemma PointReadsBack(p: seq<byte>, kind: nat)
    requires Wanted(p) && U16At(p, 0) == kind && HasValue(p)
    ensures |PointItem(p, kind)| == 1 && IsPoint(PointItem(p, kind)[0], p)
  {
    hide LeValue, U16At, PathKey, Value, PointMap, PointType, DataType, IsPath, IsValue;
    TypesAre(p);
    PathIs(p);
    if |p| == 80 {
      StringIs(p);
      PointMapReadsBack(p, StrValue(p)[0]);
      assert StrValue(p) == [StrValue(p)[0]];
    } else {
      ValueIs(p);
      PointMapReadsBack(p, Value(p)[0]);
      assert Value(p) == [Value(p)[0]];
    }
  }

  lemma StringIs(p: seq<byte>)
    requires |p| == 80 && U16At(p, 2) == 4
    ensures |StrValue(p)| == 1 && IsValue(Some(StrValue(p)[0]), p)
  {
    hide CText, IsText, U16At;
    CTextIs(p[48..]);
    assert p[48..] == p[48..80];
  }

  /** The points of one kind that are sent, in their order. */
  function OfKind(rs: seq<Record>, kind: nat): seq<Record> {
    if rs == [] then []
    else (if Wanted(rs[0].payload) && U16At(rs[0].payload, 0) == kind then [rs[0]] else []) + OfKind(rs[1..], kind)
  }

  /** One item for each of these points, in their order; those without a value are not spoken of. */
  predicate ArePoints(items: seq<Item>, rs: seq<Record>) {
    && |items| == |rs|
    && forall i :: 0 <= i < |rs| ==>
         Wanted(rs[i].payload) && (HasValue(rs[i].payload) ==> IsPoint(items[i], rs[i].payload))
  }

  lemma OnePointItem(p: seq<byte>, kind: nat)
    requires |p| >= 4
    ensures |PointItem(p, kind)| == if Wanted(p) && U16At(p, 0) == kind then 1 else 0
  {
    hide LeValue, U16At, PointMap, Value, StrValue, PointType, DataType;
    TypesAre(p);
  }

  lemma {:induction false} PointsReadBack(rs: seq<Record>, kind: nat)
    requires PointsOk(rs)
    ensures ArePoints(PointItems(rs, kind), OfKind(rs, kind))
    decreases |rs|
  {
    hide PointItem, IsPoint, U16At, HasValue, Wanted;
    if rs != [] {
      var p := rs[0].payload;
      PointsReadBack(rs[1..], kind);
      OnePointItem(p, kind);
      if Wanted(p) && U16At(p, 0) == kind {
        WantedSize(p);
        if HasValue(p) {
          PointReadsBack(p, kind);
        }
      }
    }
  }

  lemma WantedSize(p: seq<byte>)
    requires Wanted(p)
    ensures |p| == 56 || |p| == 80
  {
  }
}
