/**
  Log records: the tree each one becomes, and the loops that walk a critical read window once per
  severity and report how many bytes of it may be released.
 */
module LogEncoder {
  import opened Bytes
  import opened Framing
  import opened Consumption
  import opened Cbor
  import opened Tlv
  import opened CborEncoder

  // offsets in the log record, with 64 argument bytes and 16 task-name bytes
  const LOG_SIZE := 120
  const PC_AT := 4
  const TS_AT := 8
  const TAG_AT := 16
  const MSG_AT := 32
  const ARGS_AT := 36
  const ARGS_LEN_AT := 100
  const TASK_AT := 101
  const TASK_END := 117

  const LOG_ERROR: byte := 1
  const LOG_WARNING: byte := 2
  const LOG_EVENT: byte := 4

  /** The text of a character array, up to its first NUL. */
  function CText(s: seq<byte>): string {
    if s == [] || s[0] == 0 then "" else [s[0] as char] + CText(s[1..])
  }

  lemma {:induction false} ParsedAreTyped(s: seq<byte>)
    ensures ParseArgs(s).Some? ==> AllWellTyped(ParseArgs(s).value)
    decreases |s|
  {
    if |s| >= 2 && s[1] <= |s| - 2 {
      ParsedAreTyped(s[2 + s[1] as int..]);
    }
  }

  function Args(rec: seq<byte>): (r: Option<seq<Arg>>)
    requires |rec| == LOG_SIZE
    ensures r.Some? ==> AllWellTyped(r.value)
  {
    if rec[ARGS_LEN_AT] <= ARGS_LEN_AT - ARGS_AT then
      var s := rec[ARGS_AT..ARGS_AT + rec[ARGS_LEN_AT] as int];
      ParsedAreTyped(s);
      ParseArgs(s)
    else None
  }

  /** A record as the log hook writes it: a known severity and a complete argument string. */
  predicate LogOk(rec: seq<byte>) {
    |rec| == LOG_SIZE && rec[0] in {LOG_ERROR, LOG_WARNING, LOG_EVENT} && Args(rec).Some?
  }

  predicate LogsOk(rs: seq<Record>) {
    forall i :: 0 <= i < |rs| ==> LogOk(rs[i].payload)
  }

  function LogItem(rec: seq<byte>): Item
    requires LogOk(rec)
  {
    Map(LogHead(rec) + [Leaf(Text("av")), Array(RenderAll(Args(rec).value))] + LogTask(rec))
  }

  function LogHead(rec: seq<byte>): seq<Item>
    requires |rec| == LOG_SIZE
  {
    [Leaf(Text("ts")), Leaf(UInt(LeValue(rec[TS_AT..TAG_AT]))),
     Leaf(Text("tag")), Leaf(Text(CText(rec[TAG_AT..MSG_AT]))),
     Leaf(Text("pc")), Leaf(UInt(LeValue(rec[PC_AT..TS_AT]))),
     Leaf(Text("ro")), Leaf(UInt(LeValue(rec[MSG_AT..ARGS_AT])))]
  }

  /** The task name is left out when it is empty. */
  function LogTask(rec: seq<byte>): seq<Item>
    requires |rec| == LOG_SIZE
  {
    var task := CText(rec[TASK_AT..TASK_END]);
    if task == "" then [] else [Leaf(Text("task")), Leaf(Text(task))]
  }

  /** The trees of the records of one severity, in queue order. */
  function LogItems(rs: seq<Record>, severity: byte): seq<Item>
    requires LogsOk(rs)
  {
    if rs == [] then []
    else (if rs[0].payload[0] == severity then [LogItem(rs[0].payload)] else []) + LogItems(rs[1..], severity)
  }

  lemma {:induction false} LogItemsSnoc(rs: seq<Record>, k: nat, severity: byte)
    requires LogsOk(rs) && k < |rs|
    ensures LogItems(rs[..k + 1], severity) == LogItems(rs[..k], severity)
         + if rs[k].payload[0] == severity then [LogItem(rs[k].payload)] else []
    decreases k
  {
    hide LogItem, Args, LogOk;
    assert rs[..k + 1][1..] == rs[1..][..k];
    if k > 0 {
      assert rs[..k][1..] == rs[1..][..k - 1];
      LogItemsSnoc(rs[1..], k - 1, severity);
    }
  }

  /** `encode_msg_args`: an 8-bit cursor over the argument bytes; it ends exactly on `argsLen`. */
  method EncodeMsgArgs(enc: Encoder, args: seq<byte>, argsLen: byte) returns (cursor: nat)
    requires enc.Ok() && argsLen <= |args| && ParseArgs(args[..argsLen as int]).Some?
    modifies enc
    ensures enc.Ok() && cursor == argsLen && AllWellTyped(ParseArgs(args[..argsLen as int]).value)
    ensures enc.open == Push(old(enc.open), [Array(RenderAll(ParseArgs(args[..argsLen as int]).value))])
  {
    hide ParseArgs, RenderAll, Render, Emitted, WellTyped, AllWellTyped, CloseLast, Push, Cut8;
    ghost var fs := enc.open;
    ghost var items: seq<Item> := [];
    var n: nat := argsLen;
    ghost var all := ParseArgs(args[..n]).value;
    ParsedAreTyped(args[..n]);
    ghost var left := all;
    enc.Open(OfArray);
    var i: nat := 0;
    assert args[0..n] == args[..n] && items + RenderAll(left) == RenderAll(left);
    while i < n
      invariant i <= n && enc.Ok() && enc.open == fs + [Level(OfArray, items)]
      invariant ParseArgs(args[i..n]) == Some(left) && AllWellTyped(left)
      invariant RenderAll(all) == items + RenderAll(left)
      decreases n - i
    {
      ghost var s := args[i..n];
      HeadArg(s);
      var kind := args[i];
      i := Cut8(i + 1);
      var len: nat := args[i];
      i := Cut8(i + 1);
      SliceOfWindow(args, i - 2, n, len);
      EncodeValue(enc, kind, args[i..i + len], fs, items);
      AppendGroups(items, Render(left[0]), RenderAll(left[1..]));
      items := items + Render(left[0]);
      left := left[1..];
      i := Cut8(i + len);
    }
    assert args[n..n] == [];
    HeadArg([]);
    enc.Close(OfArray);
    CloseInside(fs, OfArray, items);
    cursor := i;
  }

  lemma SliceOfWindow(s: seq<byte>, i: nat, n: nat, len: nat)
    requires i + 2 + len <= n <= |s|
    ensures s[i + 2..i + 2 + len] == s[i..n][2..2 + len] && s[i + 2 + len..n] == s[i..n][2 + len..]
  {
    assert s[i..n] == s[..n][i..];
    SliceOfDrop(s[..n], i, 2, 2 + len);
    assert s[..n][i + 2..i + 2 + len] == s[i + 2..i + 2 + len];
  }

  lemma AppendGroups(a: seq<Item>, b: seq<Item>, c: seq<Item>)
    ensures a + (b + c) == a + b + c
  {
  }

  lemma HeadArg(s: seq<byte>)
    requires ParseArgs(s).Some?
    ensures s == [] ==> ParseArgs(s).value == [] && forall x: seq<Item> :: x + RenderAll([]) == x
    ensures s != [] ==> var v := ParseArgs(s).value;
      && v != [] && |s| >= 2 && s[1] <= |s| - 2 && v[0] == Arg(s[0], s[2..2 + s[1] as int]) && WellTyped(v[0])
      && ParseArgs(s[2 + s[1] as int..]) == Some(v[1..])
      && (AllWellTyped(v) ==> AllWellTyped(v[1..]) && RenderAll(v) == Render(v[0]) + RenderAll(v[1..]))
  {
  }

  /** The switch over the type byte; types it does not know are skipped. */
  method EncodeValue(enc: Encoder, kind: byte, value: seq<byte>, ghost fs: seq<Level>, ghost items: seq<Item>)
    requires enc.Ok() && WellTyped(Arg(kind, value)) && enc.open == fs + [Level(OfArray, items)]
    modifies enc
    ensures enc.Ok() && enc.open == fs + [Level(OfArray, items + Render(Arg(kind, value)))]
  {
    match kind {
      case 0 => enc.Put(Simple(value[0]));
      case 7 => enc.Put(Simple(value[0]));
      case _ =>
        if Signed(kind) {
          enc.Put(SignedScalar(TwosComplement(LeValue(value), Width(kind)), Width(kind)));
        } else if kind in {USHORT, UINT, ULONG, ULLONG, SIZE, UINTMAX} {
          enc.Put(UInt(LeValue(value)));
        } else if kind == DOUBLE || kind == LDOUBLE {
          enc.Put(Cbor.Double(value));
        } else if kind == STR {
          enc.Put(Text(TextOf(value)));
        }
    }
    assert items + [] == items;
  }

  method EncodeLogHead(enc: Encoder, rec: seq<byte>)
    requires enc.Ok() && |rec| == LOG_SIZE
    modifies enc
    ensures enc.Ok() && enc.open == Push(old(enc.open), LogHead(rec))
  {
    hide Emitted, LeValue, CText;
    ghost var fs := enc.open;
    enc.PutPair("ts", UInt(LeValue(rec[TS_AT..TAG_AT])));
    enc.PutPair("tag", Text(CText(rec[TAG_AT..MSG_AT])));
    enc.PutPair("pc", UInt(LeValue(rec[PC_AT..TS_AT])));
    enc.PutPair("ro", UInt(LeValue(rec[MSG_AT..ARGS_AT])));
    Gained(fs, enc.open, LogHead(rec));
  }

  /** `encode_log_element`. */
  method EncodeLogElement(enc: Encoder, rec: seq<byte>)
    requires enc.Ok() && LogOk(rec)
    modifies enc
    ensures enc.Ok() && enc.open == Push(old(enc.open), [LogItem(rec)])
  {
    hide Emitted, ParseArgs, RenderAll, LeValue, CText, WellTyped, Render, LogHead, CloseLast, Push;
    ghost var fs, head, key := enc.open, LogHead(rec), [Leaf(Text("av"))];
    ghost var list := [Array(RenderAll(Args(rec).value))];
    enc.Open(OfMap);
    PushInside(fs, OfMap, [], head);
    assert [] + head == head;
    EncodeLogHead(enc, rec);
    PushInside(fs, OfMap, head, key);
    enc.Put(Text("av"));
    PushInside(fs, OfMap, head + key, list);
    var args, argsLen := rec[ARGS_AT..ARGS_LEN_AT], rec[ARGS_LEN_AT];
    assert args[..argsLen as int] == rec[ARGS_AT..ARGS_AT + argsLen as int];
    var _ := EncodeMsgArgs(enc, args, argsLen);
    var task := CText(rec[TASK_AT..TASK_END]);
    ghost var all := head + key + list + LogTask(rec);
    PushInside(fs, OfMap, head + key + list, LogTask(rec));
    assert head + key + list + [] == head + key + list;
    if |task| > 0 {
      enc.PutPair("task", Text(task));
    }
    assert head + key + list == head + [Leaf(Text("av")), list[0]];
    enc.Close(OfMap);
    CloseInside(fs, OfMap, all);
  }

  /**
    `encode_log_list`: one pass over the window for one severity. `rs` is what is queued; the window
    `data` may end inside a record. The result counts the whole records of the first one's boot.
   */
  method EncodeLogList(enc: Encoder, severity: byte, key: string, data: seq<byte>, ghost rs: seq<Record>)
    returns (consumed: nat)
    requires enc.Ok() && LogsOk(rs)
    requires 0 < |data| <= |FlattenLogs(rs)| && data == FlattenLogs(rs)[..|data|]
    modifies enc
    ensures enc.Ok()
    ensures var k := Run(rs, 0, data[0], |data|);
      && consumed == Total(rs[..k], 0)
      && enc.open == Push(old(enc.open), [Leaf(Text(key)), Array(LogItems(rs[..k], severity))])
  {
    hide LogItem, Args, Emitted, LogItems, LogOk, FlattenLogs, Run, Total, Push, CloseLast;
    ghost var fs := enc.open;
    enc.Put(Text(key));
    ghost var outer := enc.open;
    enc.Open(OfArray);
    var metaIdx := data[0];
    var i, size: nat := 0, |data|;
    ghost var j := 0;
    ghost var items: seq<Item> := [];
    StartOfWindow(rs, data, severity);
    while size > LOG_SIZE
      invariant enc.Ok() && enc.open == outer + [Level(OfArray, items)]
      invariant j <= |rs| && i + size == |data| && i == Total(rs[..j], 0) && items == LogItems(rs[..j], severity)
      invariant size <= |FlattenLogs(rs[j..])| && data[i..] == FlattenLogs(rs[j..])[..size]
      invariant Run(rs, 0, metaIdx, |data|) == j + Run(rs[j..], 0, metaIdx, size)
      decreases size
    {
      NextLog(rs, j, data[i..]);
      RunLog(rs, j, metaIdx, size);
      if data[i] != metaIdx {
        break;
      }
      i := i + 1;
      size := size - 1;
      SliceOfDrop(data, i - 1, 1, 1 + LOG_SIZE);
      PushInside(outer, OfArray, items, [LogItem(rs[j].payload)]);
      LogItemsSnoc(rs, j, severity);
      assert data[i] == rs[j].payload[0] && items + [] == items;
      if data[i] == severity {
        EncodeLogElement(enc, data[i..i + LOG_SIZE]);
      }
      TotalTake(rs, 0, j);
      items := LogItems(rs[..j + 1], severity);
      i := i + LOG_SIZE;
      size := size - LOG_SIZE;
      j := j + 1;
    }
    RunLog(rs, j, metaIdx, size);
    enc.Close(OfArray);
    CloseInside(outer, OfArray, items);
    PushPush(fs, [Leaf(Text(key))], [Array(items)]);
    assert [Leaf(Text(key))] + [Array(items)] == [Leaf(Text(key)), Array(items)];
    consumed := i;
  }

  lemma StartOfWindow(rs: seq<Record>, data: seq<byte>, severity: byte)
    requires |data| <= |FlattenLogs(rs)| && data == FlattenLogs(rs)[..|data|]
    ensures LogItems([], severity) == [] && Total([], 0) == 0 && rs[..0] == [] && rs[0..] == rs && data[0..] == data
  {
  }

  /** The whole record at the head of what is left of the window. */
  lemma NextLog(rs: seq<Record>, j: nat, w: seq<byte>)
    requires LogsOk(rs) && j <= |rs| && LOG_SIZE < |w| <= |FlattenLogs(rs[j..])|
    requires w == FlattenLogs(rs[j..])[..|w|]
    ensures j < |rs| && LogOk(rs[j].payload) && w[0] == rs[j].meta && w[1..1 + LOG_SIZE] == rs[j].payload
    ensures |w| - 1 - LOG_SIZE <= |FlattenLogs(rs[j + 1..])|
    ensures w[1 + LOG_SIZE..] == FlattenLogs(rs[j + 1..])[..|w| - 1 - LOG_SIZE]
  {
    hide Args;
    assert rs[j..][1..] == rs[j + 1..];
    assert LogOk(rs[j].payload);
    var f, rest := LogFrame(rs[j]), FlattenLogs(rs[j + 1..]);
    assert FlattenLogs(rs[j..]) == f + rest;
    assert w == f + rest[..|w| - |f|];
  }

  lemma RunLog(rs: seq<Record>, j: nat, meta: byte, n: nat)
    requires LogsOk(rs) && j <= |rs|
    ensures Run(rs[j..], 0, meta, n) ==
      if n <= LOG_SIZE || j == |rs| || rs[j].meta != meta then 0 else 1 + Run(rs[j + 1..], 0, meta, n - 1 - LOG_SIZE)
  {
    hide Args;
    if j < |rs| {
      assert rs[j..][1..] == rs[j + 1..];
      assert LogOk(rs[j].payload);
    }
  }

  /** `esp_insights_cbor_encode_diag_logs`: three passes over the same window. */
  method EncodeDiagLogs(enc: Encoder, data: seq<byte>, ghost rs: seq<Record>) returns (consumed: nat)
    requires enc.Ok() && LogsOk(rs)
    requires 0 < |data| <= |FlattenLogs(rs)| && data == FlattenLogs(rs)[..|data|]
    modifies enc
    ensures enc.Ok()
    ensures var k := Run(rs, 0, data[0], |data|);
      && consumed == Total(rs[..k], 0)
      && enc.open == Push(old(enc.open), Traces(rs[..k]))
  {
    hide LogItems, Emitted, Run, Total, FlattenLogs, Push, CloseLast, LogOk;
    ghost var fs := enc.open;
    ghost var run := rs[..Run(rs, 0, data[0], |data|)];
    enc.Put(Text("traces"));
    ghost var outer := enc.open;
    enc.Open(OfMap);
    PushInside(outer, OfMap, [], LogList("errors", run, LOG_ERROR));
    var consumedMax := EncodeLogList(enc, LOG_ERROR, "errors", data, rs);
    PushPush(outer + [Level(OfMap, [])], LogList("errors", run, LOG_ERROR), LogList("warnings", run, LOG_WARNING));
    consumed := EncodeLogList(enc, LOG_WARNING, "warnings", data, rs);
    if consumed > consumedMax {
      consumedMax := consumed;
    }
    consumed := EncodeLogList(enc, LOG_EVENT, "events", data, rs);
    PushPush(outer + [Level(OfMap, [])], LogList("errors", run, LOG_ERROR) + LogList("warnings", run, LOG_WARNING),
             LogList("events", run, LOG_EVENT));
    if consumed > consumedMax {
      consumedMax := consumed;
    }
    ghost var items := LogList("errors", run, LOG_ERROR) + LogList("warnings", run, LOG_WARNING)
                       + LogList("events", run, LOG_EVENT);
    PushInside(outer, OfMap, [], items);
    assert [] + items == items;
    enc.Close(OfMap);
    CloseInside(outer, OfMap, items);
    PushPush(fs, [Leaf(Text("traces"))], [Map(items)]);
    consumed := consumedMax;
  }

  function LogList(key: string, run: seq<Record>, severity: byte): seq<Item>
    requires LogsOk(run)
  {
    [Leaf(Text(key)), Array(LogItems(run, severity))]
  }

  function Traces(run: seq<Record>): (es: seq<Item>)
    requires LogsOk(run)
    ensures |es| == 2 && es[0] == Leaf(Text("traces"))
  {
    [Leaf(Text("traces"))] + [Map(LogList("errors", run, LOG_ERROR) + LogList("warnings", run, LOG_WARNING)
                                  + LogList("events", run, LOG_EVENT))]
  }

  function AllLogItems(run: seq<Record>): seq<Item>
    requires LogsOk(run)
  {
    if run == [] then [] else [LogItem(run[0].payload)] + AllLogItems(run[1..])
  }

  /** Every consumed record is sent in exactly one of the three lists, and nothing else is. */
  lemma {:induction false} SeveritiesPartition(run: seq<Record>)
    requires LogsOk(run)
    ensures multiset(LogItems(run, LOG_ERROR)) + multiset(LogItems(run, LOG_WARNING))
            + multiset(LogItems(run, LOG_EVENT))
         == multiset(AllLogItems(run))
    decreases |run|
  {
    hide LogItem, Args;
    if run != [] {
      SeveritiesPartition(run[1..]);
      assert LogOk(run[0].payload);
    }
  }
}
