/**
  What a reader of the diagnostics message finds in it by the names of the keys: the boots it speaks of, and behind
  each list's name exactly the records that belong there.
 */
module MessageReader {
  import opened Bytes
  import opened Framing
  import opened Consumption
  import opened Cbor
  import opened CborReader
  import opened LogEncoder
  import opened PointEncoder
  import opened RtcStore
  import opened DiagMessage
  import opened RecordReader

  // ---- the boot header ----

  function DigitValue(c: char): Option<nat> {
    if '0' <= c <= '9' then Some(c as int - '0' as int)
    else if 'a' <= c <= 'f' then Some(c as int - 'a' as int + 10)
    else None
  }

  /** The bytes of a text of hexadecimal digits, high digit first. */
  function Unhex(t: string): Option<seq<byte>> {
    if t == "" then Some([])
    else if |t| == 1 || DigitValue(t[0]).None? || DigitValue(t[1]).None? || Unhex(t[2..]).None? then None
    else
      var b := 16 * DigitValue(t[0]).value + DigitValue(t[1]).value;
      if b < 256 then Some([b] + Unhex(t[2..]).value) else None
  }

  lemma {:induction false} UnhexHex(b: seq<byte>)
    ensures Unhex(Hex(b)) == Some(b)
    decreases |b|
  {
    if b != [] {
      UnhexHex(b[1..]);
      var t := Hex(b);
      assert t[2..] == Hex(b[1..]);
      DigitOfDigit(b[0] / 16);
      DigitOfDigit(b[0] % 16);
      assert b == [b[0]] + b[1..];
    }
  }

  lemma DigitOfDigit(v: nat)
    requires v < 16
    ensures DigitValue(HexDigit(v)) == Some(v)
  {
  }

  /** The boot that a map of entries names: hash, generation and boot count behind their keys. */
  function ReadHeader(entries: seq<Item>): Option<MetaHeader> {
    var sha, gen, boot := Lookup(entries, "sha256"), Lookup(entries, "gen_id"), Lookup(entries, "boot_cnt");
    if sha.Some? && sha.value.Leaf? && sha.value.scalar.Text? && Unhex(sha.value.scalar.text).Some?
       && gen.Some? && gen.value.Leaf? && gen.value.scalar.UInt? && gen.value.scalar.n < U8
       && boot.Some? && boot.value.Leaf? && boot.value.scalar.UInt? && boot.value.scalar.n < U8
    then Some(MetaHeader(gen.value.scalar.n, boot.value.scalar.n, Unhex(sha.value.scalar.text).value))
    else None
  }

  lemma HeaderKeysDiffer()
    ensures "sha256" != "gen_id" && "sha256" != "boot_cnt" && "gen_id" != "boot_cnt"
    ensures "maps_to" != "sha256" && "maps_to" != "gen_id" && "maps_to" != "boot_cnt"
    ensures "ver" != "sha256" && "ver" != "gen_id" && "ver" != "boot_cnt" && "ver" != "ts" && "ver" != "data"
    ensures "ts" != "sha256" && "ts" != "gen_id" && "ts" != "boot_cnt" && "ts" != "data"
    ensures "sha256" != "data" && "gen_id" != "data" && "boot_cnt" != "data"
  {
    assert "sha256"[0] != "gen_id"[0];
  }

  lemma HeaderItemsReadBack(h: MetaHeader)
    ensures var es := HeaderItems(h);
      && |es| == 6 && Lookup(es, "sha256") == Some(Leaf(Text(Hex(h.sha))))
      && Lookup(es, "gen_id") == Some(Leaf(UInt(h.genId)))
      && Lookup(es, "boot_cnt") == Some(Leaf(UInt(h.bootCnt)))
      && Lookup(es, "maps_to") == None && Lookup(es, "ver") == None && Lookup(es, "ts") == None
      && Lookup(es, "data") == None
  {
    hide Hex;
    HeaderKeysDiffer();
    var es := HeaderItems(h);
    LookupAt(es, "sha256", 0);
    LookupAt(es, "gen_id", 1);
    LookupAt(es, "boot_cnt", 2);
    LookupNone(es, "maps_to");
    LookupNone(es, "ver");
    LookupNone(es, "ts");
    LookupNone(es, "data");
  }

  lemma LookupAfterPair(name: string, v: Item, rest: seq<Item>, key: string)
    ensures Lookup([Leaf(Text(name)), v] + rest, key) == if name == key then Some(v) else Lookup(rest, key)
  {
    LookupConcat([Leaf(Text(name)), v], rest, key);
    LookupPair(name, v, key);
  }

  /** The header under which records are sent names its boot, and the lists it is for. */
  lemma HeaderEntryReadsBack(key: string, lists: seq<Item>, h: MetaHeader)
    ensures var es := HeaderEntry(key, lists, h);
      && Lookup(es, key) == Some(es[1]) && es[1].Map?
      && ReadHeader(es[1].entries) == Some(h) && Get(es[1], "maps_to") == Some(Array(lists))
  {
    hide Hex, HeaderItems;
    HeaderKeysDiffer();
    var es := HeaderEntry(key, lists, h);
    LookupPair(key, es[1], key);
    var inner := es[1].entries;
    var first := [Key("maps_to"), Array(lists)];
    assert inner == first + HeaderItems(h);
    HeaderItemsReadBack(h);
    UnhexHex(h.sha);
    LookupAfterPair("maps_to", Array(lists), HeaderItems(h), "sha256");
    LookupAfterPair("maps_to", Array(lists), HeaderItems(h), "gen_id");
    LookupAfterPair("maps_to", Array(lists), HeaderItems(h), "boot_cnt");
    LookupAfterPair("maps_to", Array(lists), HeaderItems(h), "maps_to");
  }

  /** The map around the data names version, time and the current boot. */
  lemma DiagHeadReadsBack(ts: nat, current: MetaHeader, data: Item)
    ensures var es := DiagHead(ts, current) + [data];
      && Lookup(es, "ver") == Some(Leaf(Text("2.0"))) && Lookup(es, "ts") == Some(Leaf(UInt(ts)))
      && ReadHeader(es) == Some(current) && Lookup(es, "data") == Some(data)
  {
    hide Hex, HeaderItems;
    HeaderKeysDiffer();
    HeaderItemsReadBack(current);
    UnhexHex(current.sha);
    var first, h := [Key("ver"), Key(VERSION), Key("ts"), Leaf(UInt(ts))], HeaderItems(current);
    var last := [Key("data"), data];
    assert DiagHead(ts, current) + [data] == first + (h + last);
    LookupAt(first, "ver", 0);
    LookupAt(first, "ts", 1);
    FoundInMiddle(first, h, last, "ver");
    FoundInMiddle(first, h, last, "ts");
    LookupNone(first, "sha256");
    LookupNone(first, "gen_id");
    LookupNone(first, "boot_cnt");
    LookupNone(first, "data");
    FoundInMiddle(first, h, last, "sha256");
    FoundInMiddle(first, h, last, "gen_id");
    FoundInMiddle(first, h, last, "boot_cnt");
    FoundInMiddle(first, h, last, "data");
    LookupPair("data", data, "data");
  }

  lemma FoundInMiddle(a: seq<Item>, b: seq<Item>, c: seq<Item>, key: string)
    requires |a| % 2 == 0 && |b| % 2 == 0
    ensures Lookup(a + (b + c), key) ==
      if Lookup(a, key).Some? then Lookup(a, key) else if Lookup(b, key).Some? then Lookup(b, key) else Lookup(c, key)
  {
    LookupConcat(a, b + c, key);
    LookupConcat(b, c, key);
  }

  // ---- the lists of the data map ----

  predicate LogList(i: Option<Item>, rs: seq<Record>) {
    i.Some? && i.value.Array? && AreLogs(i.value.elems, rs)
  }

  predicate PointList(i: Option<Item>, rs: seq<Record>) {
    i.Some? && i.value.Array? && ArePoints(i.value.elems, rs)
  }

  /** Errors, warnings and events: severities 1, 2 and 4. */
  predicate IsTraces(i: Option<Item>, run: seq<Record>) {
    && i.Some? && i.value.Map?
    && LogList(Get(i.value, "errors"), OfSeverity(run, 1))
    && LogList(Get(i.value, "warnings"), OfSeverity(run, 2))
    && LogList(Get(i.value, "events"), OfSeverity(run, 4))
  }

  /** A boot header that names `h` and is for these lists. */
  predicate IsHeader(i: Option<Item>, h: MetaHeader, lists: seq<string>) {
    && i.Some? && i.value.Map? && ReadHeader(i.value.entries) == Some(h)
    && Get(i.value, "maps_to") == Some(Array(seq(|lists|, k requires 0 <= k < |lists| => Leaf(Text(lists[k])))))
  }

  lemma DataKeysDiffer()
    ensures "errors" != "warnings" && "errors" != "events" && "warnings" != "events"
    ensures "traces" != "meta_c" && "traces" != "metrics" && "traces" != "params" && "traces" != "meta_nc"
    ensures "meta_c" != "metrics" && "meta_c" != "params" && "meta_c" != "meta_nc"
    ensures "metrics" != "params" && "metrics" != "meta_nc" && "params" != "meta_nc"
  {
    assert "errors"[1] != "events"[1];
    assert "traces"[0] != "meta_c"[0] && "traces"[0] != "params"[0] && "meta_c"[0] != "params"[0];
    assert "metrics"[4] != "meta_nc"[4];
  }

  lemma TracesReadBack(run: seq<Record>)
    requires LogsOk(run)
    ensures IsTraces(Some(Traces(run)[1]), run)
    ensures Traces(run) == [Key("traces"), Traces(run)[1]]
  {
    hide LogItems, AreLogs, LogOk;
    DataKeysDiffer();
    LogsReadBack(run, 1);
    LogsReadBack(run, 2);
    LogsReadBack(run, 4);
    var es := Traces(run)[1].entries;
    assert es == LogList3(run);
    LookupAt(es, "errors", 0);
    LookupAt(es, "warnings", 1);
    LookupAt(es, "events", 2);
  }

  /** The six entries of the traces map, written out. */
  function LogList3(run: seq<Record>): seq<Item>
    requires LogsOk(run)
  {
    [Key("errors"), Array(LogItems(run, 1)), Key("warnings"), Array(LogItems(run, 2)),
     Key("events"), Array(LogItems(run, 4))]
  }

  /** What of a list of pairs is found behind one of the five names of the data map. */
  lemma OnePair(name: string, v: Item, key: string)
    ensures Lookup([Key(name), v], key) == if name == key then Some(v) else None
  {
    LookupPair(name, v, key);
  }

  lemma CriticalReadsBack(cs: seq<Record>, n: nat, t: MetaTable)
    requires LogsOk(cs) && TableShape(t) && cs != []
    ensures var es, k := CriticalEntries(cs, n, t), Run(cs, 0, cs[0].meta, n);
      && |es| % 2 == 0 && IsTraces(Lookup(es, "traces"), cs[..k])
      && (if k > 0 && cs[0].meta < 10 then IsHeader(Lookup(es, "meta_c"), t.slots[cs[0].meta], ["traces"])
          else Lookup(es, "meta_c") == None)
      && Lookup(es, "metrics") == None && Lookup(es, "params") == None && Lookup(es, "meta_nc") == None
  {
    hide Traces, HeaderEntry, IsTraces, ReadHeader, Run, LogOk;
    DataKeysDiffer();
    var es, k := CriticalEntries(cs, n, t), Run(cs, 0, cs[0].meta, n);
    var run := cs[..k];
    TracesReadBack(run);
    var first := Traces(run);
    if k > 0 && cs[0].meta < 10 {
      var h := t.slots[cs[0].meta];
      var second := HeaderEntry("meta_c", [Key("traces")], h);
      assert es == first + second;
      HeaderEntryReadsBack("meta_c", [Key("traces")], h);
      assert seq(|["traces"]|, i requires 0 <= i < |["traces"]| => Leaf(Text(["traces"][i]))) == [Key("traces")];
      assert second == [Key("meta_c"), second[1]];
      TwoPairs("traces", first[1], "meta_c", second[1], es);
    } else {
      assert es == first;
      PairOnly("traces", first[1], es);
    }
  }

  lemma PairOnly(a: string, v: Item, es: seq<Item>)
    requires es == [Key(a), v]
    ensures forall key :: Lookup(es, key) == if key == a then Some(v) else None
  {
    forall key ensures Lookup(es, key) == if key == a then Some(v) else None {
      OnePair(a, v, key);
    }
  }

  lemma TwoPairs(a: string, v: Item, b: string, w: Item, es: seq<Item>)
    requires es == [Key(a), v] + [Key(b), w] && a != b
    ensures forall key :: Lookup(es, key) == if key == a then Some(v) else if key == b then Some(w) else None
  {
    forall key ensures Lookup(es, key) == if key == a then Some(v) else if key == b then Some(w) else None {
      LookupAfterPair(a, v, [Key(b), w], key);
      OnePair(b, w, key);
    }
  }

  lemma NonCriticalReadsBack(ps: seq<Record>, n: nat, t: MetaTable)
    requires PointsOk(ps) && TableShape(t) && ps != [] && n > 4
    ensures var es, k := NonCriticalEntries(ps, n, t), Run(ps, HEADER, ps[0].meta, n);
      && PointList(Lookup(es, "metrics"), OfKind(ps[..k], 0)) && PointList(Lookup(es, "params"), OfKind(ps[..k], 1))
      && (if k > 0 && ps[0].meta < 10
          then IsHeader(Lookup(es, "meta_nc"), t.slots[ps[0].meta], ["metrics", "params"])
          else Lookup(es, "meta_nc") == None)
      && Lookup(es, "traces") == None && Lookup(es, "meta_c") == None
  {
    hide PointItems, HeaderEntry, ReadHeader, Run, ArePoints, OfKind;
    DataKeysDiffer();
    var es, k := NonCriticalEntries(ps, n, t), Run(ps, HEADER, ps[0].meta, n);
    var run := ps[..k];
    PointsReadBack(run, 0);
    PointsReadBack(run, 1);
    var first := [Key("metrics"), Array(PointItems(run, 0))] + [Key("params"), Array(PointItems(run, 1))];
    assert PointLists(run) == first;
    TwoPairs("metrics", first[1], "params", first[3], first);
    if k > 0 && ps[0].meta < 10 {
      var h := t.slots[ps[0].meta];
      var lists := [Key("metrics"), Key("params")];
      var last := HeaderEntry("meta_nc", lists, h);
      assert es == first + last;
      HeaderEntryReadsBack("meta_nc", lists, h);
      var names := ["metrics", "params"];
      assert seq(|names|, i requires 0 <= i < |names| => Leaf(Text(names[i]))) == lists;
      PairOnly("meta_nc", last[1], last);
      BothParts(first, last);
    } else {
      assert es == first;
    }
  }

  lemma BothParts(a: seq<Item>, b: seq<Item>)
    requires |a| % 2 == 0
    ensures forall key :: Lookup(a + b, key) == if Lookup(a, key).Some? then Lookup(a, key) else Lookup(b, key)
  {
    forall key ensures Lookup(a + b, key) == if Lookup(a, key).Some? then Lookup(a, key) else Lookup(b, key) {
      LookupConcat(a, b, key);
    }
  }

  // ---- the whole message ----

  /** What the data map says about a critical window of `n` bytes over the log records `cs`. */
  predicate CriticalSays(data: Item, cs: seq<Record>, n: nat, slots: seq<MetaHeader>)
    requires |slots| == 10
  {
    if n == 0 || cs == [] then Get(data, "traces") == None && Get(data, "meta_c") == None
    else
      var k := Run(cs, 0, cs[0].meta, n);
      && IsTraces(Get(data, "traces"), cs[..k])
      && if k > 0 && cs[0].meta < 10 then IsHeader(Get(data, "meta_c"), slots[cs[0].meta], ["traces"])
         else Get(data, "meta_c") == None
  }

  /** And about a non-critical one: kind 0 under "metrics", kind 1 under "params". */
  predicate NonCriticalSays(data: Item, ps: seq<Record>, n: nat, slots: seq<MetaHeader>)
    requires |slots| == 10
  {
    if n <= 4 || ps == [] then
      Get(data, "metrics") == None && Get(data, "params") == None && Get(data, "meta_nc") == None
    else
      var k := Run(ps, HEADER, ps[0].meta, n);
      && PointList(Get(data, "metrics"), OfKind(ps[..k], 0)) && PointList(Get(data, "params"), OfKind(ps[..k], 1))
      && if k > 0 && ps[0].meta < 10 then IsHeader(Get(data, "meta_nc"), slots[ps[0].meta], ["metrics", "params"])
         else Get(data, "meta_nc") == None
  }

  /** The message as a reader finds it. */
  predicate MessageSays(tree: Item, ts: nat, current: MetaHeader, cs: seq<Record>, cn: nat, ps: seq<Record>, pn: nat,
                        slots: seq<MetaHeader>)
    requires |slots| == 10
  {
    && var d := Get(tree, "diag");
       && d.Some? && d.value.Map? && Get(d.value, "ver") == Some(Leaf(Text("2.0")))
       && Get(d.value, "ts") == Some(Leaf(UInt(ts))) && ReadHeader(d.value.entries) == Some(current)
       && var data := Get(d.value, "data");
          && data.Some? && CriticalSays(data.value, cs, cn, slots) && NonCriticalSays(data.value, ps, pn, slots)
  }

  /**
    For all contents of both rings, all cuts of both windows and every header table: the document that the encoder
    emits says what it should, behind every key.
   */
  lemma MessageReadsBack(ts: nat, current: MetaHeader, cs: seq<Record>, cn: nat, ps: seq<Record>, pn: nat, t: MetaTable)
    requires LogsOk(cs) && PointsOk(ps) && TableShape(t)
    requires (cn > 0 ==> cs != []) && (pn > 0 ==> ps != [])
    ensures MessageSays(DiagTree(ts, current, MessageEntries(cs, cn, ps, pn, t)), ts, current, cs, cn, ps, pn, t.slots)
  {
    hide CriticalEntries, NonCriticalEntries, IsTraces, IsHeader, PointList, ReadHeader, Run, Hex, LogOk, HeaderItems;
    var c := if cn == 0 then [] else CriticalEntries(cs, cn, t);
    var p := if pn <= 4 then [] else NonCriticalEntries(ps, pn, t);
    var data := Map(c + p);
    ShortIsEmpty(ps, pn, t);
    assert MessageEntries(cs, cn, ps, pn, t) == c + p;
    NothingFound();
    if cn > 0 {
      CriticalReadsBack(cs, cn, t);
    }
    if pn > 4 {
      NonCriticalReadsBack(ps, pn, t);
    }
    BothParts(c, p);
    DiagHeadReadsBack(ts, current, data);
  }

  lemma NothingFound()
    ensures forall key :: Lookup([], key) == None
  {
  }

  lemma ShortIsEmpty(ps: seq<Record>, n: nat, t: MetaTable)
    requires PointsOk(ps) && TableShape(t)
    ensures ps != [] && n <= 4 ==> NonCriticalEntries(ps, n, t) == []
  {
  }
}
