/**
  The diagnostics message: how the two windows and the boot headers become one CBOR document, which
  bytes may be released afterwards, and when the document is well-formed.
 */
module DiagMessage {
  import opened Bytes
  import opened Framing
  import opened Consumption
  import opened Cbor
  import opened CborEncoder
  import opened LogEncoder
  import opened PointEncoder
  import opened RtcStore

  const VERSION := "2.0"

  function Key(s: string): Item {
    Leaf(Text(s))
  }

  function Hex(b: seq<byte>): (s: string)
    ensures |s| == 2 * |b|
  {
    if b == [] then "" else [HexDigit(b[0] / 16), HexDigit(b[0] % 16)] + Hex(b[1..])
  }

  function HexDigit(v: nat): char
    requires v < 16
  {
    if v < 10 then '0' + v as char else 'a' + (v - 10) as char
  }

  /** `bytes_to_hex`. */
  method BytesToHex(src: seq<byte>) returns (dst: string)
    ensures dst == Hex(src)
  {
    dst := "";
    for i := 0 to |src|
      invariant dst + Hex(src[i..]) == Hex(src)
    {
      assert src[i..][1..] == src[i + 1..];
      dst := dst + [HexDigit(src[i] / 16), HexDigit(src[i] % 16)];
    }
  }

  function HeaderItems(h: MetaHeader): seq<Item> {
    [Key("sha256"), Key(Hex(h.sha)), Key("gen_id"), Leaf(UInt(h.genId)), Key("boot_cnt"), Leaf(UInt(h.bootCnt))]
  }

  /** The header under which the records of one list are to be read, and which lists it covers. */
  function HeaderEntry(key: string, lists: seq<Item>, h: MetaHeader): (es: seq<Item>)
    ensures |es| == 2 && es[0] == Key(key)
  {
    [Key(key), Map([Key("maps_to"), Array(lists)] + HeaderItems(h))]
  }

  /** What a critical window of `n` bytes adds to the "data" map: the traces, then their boot's header. */
  function CriticalEntries(rs: seq<Record>, n: nat, t: MetaTable): seq<Item>
    requires LogsOk(rs) && TableShape(t) && rs != []
  {
    var k := Run(rs, 0, rs[0].meta, n);
    Traces(rs[..k]) +
    if k > 0 && rs[0].meta < MAX_META_RECORDS
    then HeaderEntry("meta_c", [Key("traces")], t.slots[rs[0].meta]) else []
  }

  function NonCriticalEntries(rs: seq<Record>, n: nat, t: MetaTable): seq<Item>
    requires PointsOk(rs) && TableShape(t) && rs != []
  {
    if n <= HEADER then [] else
      var k := Run(rs, HEADER, rs[0].meta, n);
      PointLists(rs[..k]) +
      if k > 0 && rs[0].meta < MAX_META_RECORDS
      then HeaderEntry("meta_nc", [Key("metrics"), Key("params")], t.slots[rs[0].meta]) else []
  }

  function PointLists(run: seq<Record>): seq<Item>
    requires PointsOk(run)
  {
    [Key("metrics"), Array(PointItems(run, METRICS)), Key("params"), Array(PointItems(run, VARIABLES))]
  }

  function DiagHead(ts: nat, current: MetaHeader): seq<Item> {
    [Key("ver"), Key(VERSION), Key("ts"), Leaf(UInt(ts))] + HeaderItems(current) + [Key("data")]
  }

  function DiagTree(ts: nat, current: MetaHeader, data: seq<Item>): Item {
    Map1(Key("diag"), Map(DiagHead(ts, current) + [Map(data)]))
  }

  method EncodeHeader(enc: Encoder, h: MetaHeader)
    requires enc.Ok()
    modifies enc
    ensures enc.Ok() && enc.open == Push(old(enc.open), HeaderItems(h))
  {
    hide Emitted, Hex;
    ghost var fs := enc.open;
    var hex := BytesToHex(h.sha);
    enc.PutPair("sha256", Text(hex));
    enc.PutPair("gen_id", UInt(h.genId));
    enc.PutPair("boot_cnt", UInt(h.bootCnt));
    Gained(fs, enc.open, HeaderItems(h));
  }

  function Lists(list1: string, list2: Option<string>): seq<Item> {
    if list2.Some? then [Key(list1), Key(list2.value)] else [Key(list1)]
  }

  method EncodeMapsTo(enc: Encoder, list1: string, list2: Option<string>)
    requires enc.Ok()
    modifies enc
    ensures enc.Ok() && enc.open == Push(old(enc.open), [Key("maps_to"), Array(Lists(list1, list2))])
  {
    hide Emitted, Push, CloseLast;
    ghost var fs := enc.open;
    enc.Put(Text("maps_to"));
    ghost var outer := enc.open;
    enc.Open(OfArray);
    PushInside(outer, OfArray, [], [Key(list1)]);
    assert [] + [Key(list1)] == [Key(list1)];
    enc.Put(Text(list1));
    if list2.Some? {
      PushInside(outer, OfArray, [Key(list1)], [Key(list2.value)]);
      assert [Key(list1)] + [Key(list2.value)] == Lists(list1, list2);
      enc.Put(Text(list2.value));
    }
    ghost var lists := Lists(list1, list2);
    assert enc.open == outer + [Level(OfArray, lists)];
    enc.Close(OfArray);
    CloseInside(outer, OfArray, lists);
    PushPush(fs, [Key("maps_to")], [Array(lists)]);
    assert [Key("maps_to")] + [Array(lists)] == [Key("maps_to"), Array(lists)];
  }

  /** `esp_insights_cbor_encode_meta_c_hdr` and its non-critical twin. */
  method EncodeHeaderEntry(enc: Encoder, key: string, list1: string, list2: Option<string>, h: MetaHeader)
    requires enc.Ok()
    modifies enc
    ensures enc.Ok() && enc.open == Push(old(enc.open), HeaderEntry(key, Lists(list1, list2), h))
  {
    hide Emitted, HeaderItems, Push, CloseLast, Lists;
    ghost var fs := enc.open;
    enc.Put(Text(key));
    ghost var outer := enc.open;
    enc.Open(OfMap);
    ghost var maps := [Key("maps_to"), Array(Lists(list1, list2))];
    PushInside(outer, OfMap, [], maps);
    assert [] + maps == maps;
    EncodeMapsTo(enc, list1, list2);
    PushInside(outer, OfMap, maps, HeaderItems(h));
    EncodeHeader(enc, h);
    enc.Close(OfMap);
    CloseInside(outer, OfMap, maps + HeaderItems(h));
    PushPush(fs, [Key(key)], [Map(maps + HeaderItems(h))]);
    assert [Key(key)] + [Map(maps + HeaderItems(h))] == HeaderEntry(key, Lists(list1, list2), h);
  }

  /** `esp_insights_encode_critical_data` over the window read from the critical ring. */
  method EncodeCriticalData(enc: Encoder, data: seq<byte>, slots: array<MetaHeader>, ghost rs: seq<Record>)
    returns (consumed: nat)
    requires enc.Ok() && LogsOk(rs) && slots.Length == MAX_META_RECORDS
    requires 0 < |data| <= |FlattenLogs(rs)| && data == FlattenLogs(rs)[..|data|]
    modifies enc
    ensures enc.Ok() && rs != []
    ensures consumed == Total(rs[..Run(rs, 0, rs[0].meta, |data|)], 0)
    ensures enc.open == Push(old(enc.open), CriticalEntries(rs, |data|, MetaTable(slots[..], 0)))
  {
    hide Emitted, Push, Traces, LogOk, HeaderItems, Run, Total;
    ghost var fs := enc.open;
    assert rs != [] && data[0] == rs[0].meta by {
      assert FlattenLogs(rs)[0] == LogFrame(rs[0])[0];
    }
    consumed := EncodeDiagLogs(enc, data, rs);
    ghost var k := Run(rs, 0, data[0], |data|);
    RunEmptyIff(rs, 0, k);
    if consumed != 0 {
      var metaIdx := data[0];
      if metaIdx < MAX_META_RECORDS {
        PushPush(fs, Traces(rs[..k]), HeaderEntry("meta_c", [Key("traces")], slots[metaIdx]));
        EncodeHeaderEntry(enc, "meta_c", "traces", None, slots[metaIdx]);
      }
    }
    assert Traces(rs[..k]) + [] == Traces(rs[..k]);
  }

  lemma RunEmptyIff(rs: seq<Record>, h: nat, k: nat)
    requires k <= |rs|
    ensures Total(rs[..k], h) == 0 <==> k == 0
  {
    if k > 0 {
      TotalTake(rs, h, k - 1);
    }
  }

  /** `esp_insights_encode_non_critical_data`: both passes, and the larger of the two counts. */
  method EncodeNonCriticalData(enc: Encoder, data: seq<byte>, slots: array<MetaHeader>, ghost rs: seq<Record>)
    returns (consumed: nat)
    requires enc.Ok() && PointsOk(rs) && slots.Length == MAX_META_RECORDS
    requires 0 < |data| <= |Flatten(rs)| && data == Flatten(rs)[..|data|]
    modifies enc
    ensures enc.Ok() && rs != []
    ensures consumed == Total(rs[..Run(rs, HEADER, rs[0].meta, |data|)], HEADER)
    ensures enc.open == Push(old(enc.open), NonCriticalEntries(rs, |data|, MetaTable(slots[..], 0)))
  {
    hide Emitted, Push, PointItems, HeaderItems, Run, Total;
    ghost var fs := enc.open;
    assert rs != [] && data[0] == rs[0].meta by {
      assert Flatten(rs)[0] == Frame(rs[0])[0];
    }
    ghost var k := Run(rs, HEADER, data[0], |data|);
    RunEmptyIff(rs, HEADER, k);
    ghost var lists := PointLists(rs[..k]);
    var consumedMax := EncodeDataPoints(enc, data, "metrics", METRICS, rs);
    consumed := EncodeDataPoints(enc, data, "params", VARIABLES, rs);
    if consumed > consumedMax {
      consumedMax := consumed;
    }
    if |data| <= HEADER {
      ShortWindow(rs, |data|);
      Gained(fs, fs, []);
    } else {
      PushPush(fs, lists[..2], lists[2..]);
      assert lists[..2] == [Key("metrics"), Array(PointItems(rs[..k], METRICS))];
      assert lists[2..] == [Key("params"), Array(PointItems(rs[..k], VARIABLES))];
      assert lists[..2] + lists[2..] == lists && lists + [] == lists;
    }
    if consumedMax != 0 {
      var metaIdx := data[0];
      if metaIdx < MAX_META_RECORDS {
        PushPush(fs, lists, HeaderEntry("meta_nc", [Key("metrics"), Key("params")], slots[metaIdx]));
        EncodeHeaderEntry(enc, "meta_nc", "metrics", Some("params"), slots[metaIdx]);
      }
    }
    consumed := consumedMax;
  }

  lemma ShortWindow(rs: seq<Record>, n: nat)
    requires rs != [] && n <= HEADER
    ensures Run(rs, HEADER, rs[0].meta, n) == 0 && Total(rs[..0], HEADER) == 0
  {
  }

  // ---- the whole message ----

  /** The "data" map; a ring that read as empty adds nothing. */
  function MessageEntries(cs: seq<Record>, cn: nat, ps: seq<Record>, pn: nat, t: MetaTable): seq<Item>
    requires LogsOk(cs) && PointsOk(ps) && TableShape(t)
    requires (cn > 0 ==> cs != []) && (pn > 0 ==> ps != [])
  {
    (if cn == 0 then [] else CriticalEntries(cs, cn, t)) + (if pn == 0 then [] else NonCriticalEntries(ps, pn, t))
  }

  /** The points a non-critical window of `n` bytes gets consumed. */
  function SentPoints(ps: seq<Record>, n: nat): seq<Record> {
    if n <= HEADER || ps == [] then [] else ps[..Run(ps, HEADER, ps[0].meta, n)]
  }

  /** `esp_insights_cbor_encode_diag_begin` and `..._data_begin`. */
  method EncodeDataBegin(enc: Encoder, ts: nat, current: MetaHeader)
    requires enc.Ok() && enc.open == [Level(Top, [])]
    modifies enc
    ensures enc.Ok() && enc.open == Begun(ts, current) + [Level(OfMap, [])]
  {
    hide Emitted, HeaderItems;
    ghost var top := [Level(Top, [])];
    PushInside(top, OfMap1, [], [Key("diag")]);
    assert [] + [Key("diag")] == [Key("diag")];
    enc.Open(OfMap1);
    enc.Put(Text("diag"));
    ghost var outer := enc.open;
    enc.Open(OfMap);
    enc.PutPair("ver", Text(VERSION));
    enc.PutPair("ts", UInt(ts));
    EncodeHeader(enc, current);
    enc.Put(Text("data"));
    Gained(outer + [Level(OfMap, [])], enc.open, DiagHead(ts, current));
    PushInside(outer, OfMap, [], DiagHead(ts, current));
    assert [] + DiagHead(ts, current) == DiagHead(ts, current);
    enc.Open(OfMap);
  }

  function Begun(ts: nat, current: MetaHeader): seq<Level> {
    [Level(Top, [])] + [Level(OfMap1, [Key("diag")])] + [Level(OfMap, DiagHead(ts, current))]
  }

  /** `esp_insights_encode_data_end`: close "data", the diagnostics map and the outer pair. */
  method EncodeDataEnd(enc: Encoder, ghost ts: nat, ghost current: MetaHeader, ghost data: seq<Item>)
    requires enc.Ok() && enc.open == Begun(ts, current) + [Level(OfMap, data)]
    modifies enc
    ensures enc.Ok() && enc.open == [Level(Top, [DiagTree(ts, current, data)])]
  {
    hide Emitted, HeaderItems, Push, CloseLast, DiagHead;
    ghost var top := [Level(Top, [])];
    ghost var outer := top + [Level(OfMap1, [Key("diag")])];
    ghost var all := DiagHead(ts, current) + [Map(data)];
    CloseInside(Begun(ts, current), OfMap, data);
    PushInside(outer, OfMap, DiagHead(ts, current), [Map(data)]);
    enc.Close(OfMap);
    CloseInside(outer, OfMap, all);
    PushInside(top, OfMap1, [Key("diag")], [Map(all)]);
    assert [Key("diag")] + [Map(all)] == [Key("diag"), Map(all)];
    enc.Close(OfMap);
    CloseInside(top, OfMap1, [Key("diag"), Map(all)]);
    PushInside([], Top, [], [DiagTree(ts, current, data)]);
    assert [] + top == top && [] + [DiagTree(ts, current, data)] == [DiagTree(ts, current, data)];
    enc.Close(OfMap1);
  }

  /**
    The encoding part of `send_insights_data`: both windows into one document. The document parses
    back to the intended tree exactly when every consumed point has a data type the encoder knows.
   */
  method EncodeMessage(ts: nat, slots: array<MetaHeader>, current: nat, critical: seq<byte>, nonCritical: seq<byte>,
                       ghost cs: seq<Record>, ghost ps: seq<Record>)
    returns (out: seq<Token>, criticalConsumed: nat, nonCriticalConsumed: nat)
    requires slots.Length == MAX_META_RECORDS && current < MAX_META_RECORDS && LogsOk(cs) && PointsOk(ps)
    requires |critical| <= |FlattenLogs(cs)| && critical == FlattenLogs(cs)[..|critical|]
    requires |nonCritical| <= |Flatten(ps)| && nonCritical == Flatten(ps)[..|nonCritical|]
    ensures (|critical| > 0 ==> cs != []) && (|nonCritical| > 0 ==> ps != [])
    ensures criticalConsumed == if critical == [] then 0 else Total(cs[..Run(cs, 0, cs[0].meta, |critical|)], 0)
    ensures nonCriticalConsumed == Total(SentPoints(ps, |nonCritical|), HEADER)
    ensures var tree := DiagTree(ts, slots[current],
        MessageEntries(cs, |critical|, ps, |nonCritical|, MetaTable(slots[..], current)));
      Parse(out) == if AllKnown(SentPoints(ps, |nonCritical|)) then Some((tree, [])) else None
  {
    hide Emitted, Push, CriticalEntries, NonCriticalEntries, Begun, DiagTree, Serialize, Parse, WellFormed, AllKnown;
    ghost var t := MetaTable(slots[..], current);
    criticalConsumed, nonCriticalConsumed := 0, 0;
    var enc := new Encoder();
    EncodeDataBegin(enc, ts, slots[current]);
    ghost var outer := Begun(ts, slots[current]);
    ghost var data: seq<Item> := [];
    if |critical| > 0 {
      criticalConsumed := EncodeCriticalData(enc, critical, slots, cs);
      data := CriticalEntries(cs, |critical|, t);
      CriticalEntriesIgnoreIndex(cs, |critical|, t, 0);
      PushInside(outer, OfMap, [], data);
      assert [] + data == data;
    }
    if |nonCritical| > 0 {
      nonCriticalConsumed := EncodeNonCriticalData(enc, nonCritical, slots, ps);
      NonCriticalEntriesIgnoreIndex(ps, |nonCritical|, t, 0);
      PushInside(outer, OfMap, data, NonCriticalEntries(ps, |nonCritical|, t));
      data := data + NonCriticalEntries(ps, |nonCritical|, t);
    }
    if |nonCritical| <= HEADER && |nonCritical| > 0 {
      ShortWindow(ps, |nonCritical|);
    }
    assert data == MessageEntries(cs, |critical|, ps, |nonCritical|, t);
    EncodeDataEnd(enc, ts, slots[current], data);
    out := enc.out;
    ghost var tree := DiagTree(ts, slots[current], data);
    MessageWellFormed(ts, slots[current], cs, |critical|, ps, |nonCritical|, t);
    TopStream(tree);
    ParseSerialize(tree, []);
    assert Serialize(tree) + [] == Serialize(tree);
  }

  lemma CriticalEntriesIgnoreIndex(rs: seq<Record>, n: nat, t: MetaTable, idx: nat)
    requires LogsOk(rs) && TableShape(t) && rs != [] && idx < U8
    ensures CriticalEntries(rs, n, t) == CriticalEntries(rs, n, t.(idx := idx))
  {
  }

  lemma NonCriticalEntriesIgnoreIndex(rs: seq<Record>, n: nat, t: MetaTable, idx: nat)
    requires PointsOk(rs) && TableShape(t) && rs != [] && idx < U8
    ensures NonCriticalEntries(rs, n, t) == NonCriticalEntries(rs, n, t.(idx := idx))
  {
  }

  lemma TopStream(tree: Item)
    ensures Emitted([Level(Top, [tree])]) == Serialize(tree)
  {
    SerializeOne(tree);
    assert [Level(Top, [tree])][..0] == [];
  }

  // ---- well-formedness ----

  lemma LeavesWellFormed(es: seq<Item>)
    requires forall i :: 0 <= i < |es| ==> es[i].Leaf?
    ensures AllWellFormed(es)
  {
    AllWellFormedEach(es);
  }

  lemma {:induction false} RenderedAreLeaves(args: seq<Tlv.Arg>)
    requires Tlv.AllWellTyped(args)
    ensures forall i :: 0 <= i < |Tlv.RenderAll(args)| ==> Tlv.RenderAll(args)[i].Leaf?
    decreases |args|
  {
    if args != [] {
      RenderedAreLeaves(args[1..]);
    }
  }

  lemma LogItemWellFormed(rec: seq<byte>)
    requires LogOk(rec)
    ensures WellFormed(LogItem(rec))
  {
    hide CText, LeValue;
    var av := Array(Tlv.RenderAll(Args(rec).value));
    RenderedAreLeaves(Args(rec).value);
    LeavesWellFormed(av.elems);
    LeavesWellFormed(LogHead(rec));
    LeavesWellFormed(LogTask(rec));
    AllWellFormedEach([Key("av"), av]);
    AllWellFormedConcat(LogHead(rec), [Key("av"), av]);
    AllWellFormedConcat(LogHead(rec) + [Key("av"), av], LogTask(rec));
  }

  lemma {:induction false} LogItemsWellFormed(rs: seq<Record>, severity: byte)
    requires LogsOk(rs)
    ensures AllWellFormed(LogItems(rs, severity))
    decreases |rs|
  {
    hide LogItem;
    if rs != [] {
      assert LogOk(rs[0].payload);
      LogItemsWellFormed(rs[1..], severity);
      var head := if rs[0].payload[0] == severity then [LogItem(rs[0].payload)] else [];
      if head != [] {
        LogItemWellFormed(rs[0].payload);
      }
      AllWellFormedEach(head);
      AllWellFormedConcat(head, LogItems(rs[1..], severity));
    }
  }

  lemma TracesWellFormed(rs: seq<Record>)
    requires LogsOk(rs)
    ensures AllWellFormed(Traces(rs))
  {
    hide LogItems, LogOk;
    LogItemsWellFormed(rs, LOG_ERROR);
    LogItemsWellFormed(rs, LOG_WARNING);
    LogItemsWellFormed(rs, LOG_EVENT);
    AllWellFormedEach(Traces(rs)[1].entries);
    AllWellFormedEach(Traces(rs));
  }

  lemma HeaderEntryWellFormed(key: string, lists: seq<Item>, h: MetaHeader)
    requires forall i :: 0 <= i < |lists| ==> lists[i].Leaf?
    ensures AllWellFormed(HeaderEntry(key, lists, h))
  {
    hide Hex;
    LeavesWellFormed(lists);
    var es := [Key("maps_to"), Array(lists)] + HeaderItems(h);
    AllWellFormedEach(es);
    AllWellFormedEach(HeaderEntry(key, lists, h));
  }

  lemma CriticalWellFormed(rs: seq<Record>, n: nat, t: MetaTable)
    requires LogsOk(rs) && TableShape(t) && rs != []
    ensures AllWellFormed(CriticalEntries(rs, n, t)) && |CriticalEntries(rs, n, t)| % 2 == 0
  {
    hide LogOk, HeaderEntry, Traces;
    var k := Run(rs, 0, rs[0].meta, n);
    TracesWellFormed(rs[..k]);
    if k > 0 && rs[0].meta < MAX_META_RECORDS {
      HeaderEntryWellFormed("meta_c", [Key("traces")], t.slots[rs[0].meta]);
      AllWellFormedConcat(Traces(rs[..k]), HeaderEntry("meta_c", [Key("traces")], t.slots[rs[0].meta]));
    } else {
      assert CriticalEntries(rs, n, t) == Traces(rs[..k]);
    }
  }

  lemma PointListsWellFormed(run: seq<Record>)
    requires PointsOk(run)
    ensures AllWellFormed(PointLists(run))
       <==> AllWellFormed(PointItems(run, METRICS)) && AllWellFormed(PointItems(run, VARIABLES))
  {
    var es := PointLists(run);
    AllWellFormedEach(es);
    assert WellFormed(es[1]) <==> AllWellFormed(PointItems(run, METRICS));
    assert WellFormed(es[3]) <==> AllWellFormed(PointItems(run, VARIABLES));
  }

  lemma NonCriticalWellFormed(rs: seq<Record>, n: nat, t: MetaTable)
    requires PointsOk(rs) && TableShape(t) && rs != []
    ensures AllWellFormed(NonCriticalEntries(rs, n, t)) <==> AllKnown(SentPoints(rs, n))
    ensures |NonCriticalEntries(rs, n, t)| % 2 == 0
  {
    hide HeaderEntry, PointItems;
    if n > HEADER {
      var k := Run(rs, HEADER, rs[0].meta, n);
      PointItemsWellFormed(rs[..k]);
      PointListsWellFormed(rs[..k]);
      if k > 0 && rs[0].meta < MAX_META_RECORDS {
        var entry := HeaderEntry("meta_nc", [Key("metrics"), Key("params")], t.slots[rs[0].meta]);
        HeaderEntryWellFormed("meta_nc", [Key("metrics"), Key("params")], t.slots[rs[0].meta]);
        AllWellFormedConcat(PointLists(rs[..k]), entry);
      } else {
        assert NonCriticalEntries(rs, n, t) == PointLists(rs[..k]);
      }
    }
  }

  /** The document is well-formed exactly when every consumed point is of a known data type. */
  lemma MessageWellFormed(ts: nat, current: MetaHeader, cs: seq<Record>, cn: nat, ps: seq<Record>, pn: nat,
                          t: MetaTable)
    requires LogsOk(cs) && PointsOk(ps) && TableShape(t)
    requires (cn > 0 ==> cs != []) && (pn > 0 ==> ps != [])
    ensures WellFormed(DiagTree(ts, current, MessageEntries(cs, cn, ps, pn, t))) <==> AllKnown(SentPoints(ps, pn))
  {
    hide CriticalEntries, NonCriticalEntries, AllKnown, Hex, LogOk;
    var c := if cn == 0 then [] else CriticalEntries(cs, cn, t);
    var p := if pn == 0 then [] else NonCriticalEntries(ps, pn, t);
    if cn > 0 {
      CriticalWellFormed(cs, cn, t);
    }
    if pn > 0 {
      NonCriticalWellFormed(ps, pn, t);
    } else {
      NoneKnown();
    }
    AllWellFormedConcat(c, p);
    var data := Map(c + p);
    var head := DiagHead(ts, current);
    LeavesWellFormed(head);
    AllWellFormedEach([data]);
    AllWellFormedConcat(head, [data]);
    assert MessageEntries(cs, cn, ps, pn, t) == c + p;
  }

  lemma NoneKnown()
    ensures AllKnown([])
  {
  }

  /** No key occurs twice, neither in the "data" map nor in the map around it. */
  lemma MessageKeysUnique(ts: nat, current: MetaHeader, cs: seq<Record>, cn: nat, ps: seq<Record>, pn: nat,
                          t: MetaTable)
    requires LogsOk(cs) && PointsOk(ps) && TableShape(t)
    requires (cn > 0 ==> cs != []) && (pn > 0 ==> ps != [])
    ensures UniqueKeys(MessageEntries(cs, cn, ps, pn, t))
    ensures UniqueKeys(DiagHead(ts, current) + [Map(MessageEntries(cs, cn, ps, pn, t))])
  {
    hide Traces, HeaderEntry, PointItems, Run, LogOk, Hex;
    var c := if cn == 0 then [] else CriticalEntries(cs, cn, t);
    var p := if pn == 0 then [] else NonCriticalEntries(ps, pn, t);
    KeysOfParts(c, p);
  }

  lemma KeysOfParts(c: seq<Item>, p: seq<Item>)
    requires |c| in {0, 2, 4} && |p| <= 6
    requires |c| > 0 ==> c[0] == Key("traces")
    requires |c| > 2 ==> c[2] == Key("meta_c")
    requires |p| > 0 ==> p[0] == Key("metrics")
    requires |p| > 2 ==> p[2] == Key("params")
    requires |p| > 4 ==> p[4] == Key("meta_nc")
    ensures UniqueKeys(c + p)
  {
    var keys := ["traces", "meta_c", "metrics", "params", "meta_nc"];
    assert keys[0] != keys[1] && keys[0] != keys[2] && keys[0] != keys[3] && keys[0] != keys[4];
    assert keys[2] != keys[3] && |keys[1]| == |keys[3]| == 6 && keys[1][0] != keys[3][0];
  }
}
