/**
  The messages a device sends over its life: each of their two parts carries records of one boot, and the header
  that a reader finds with it names that boot.
 */
module MessageBoots {
  import opened Bytes
  import opened Framing
  import opened Consumption
  import opened Cbor
  import opened LogEncoder
  import opened PointEncoder
  import opened DiagMessage
  import opened RtcStore
  import opened BootEpochs
  import opened CborReader
  import opened RecordReader
  import opened MessageReader

  function Records(q: seq<Entry>): (rs: seq<Record>)
    ensures |rs| == |q|
  {
    seq(|q|, i requires 0 <= i < |q| => q[i].rec)
  }

  /** The entries of a ring that a window of `n` bytes gets consumed. */
  function Taken(q: seq<Entry>, h: nat, n: nat): (run: seq<Entry>)
    requires q != []
    ensures run <= q
  {
    q[..Consumption.Run(Records(q), h, q[0].rec.meta, n)]
  }

  predicate SameBoot(run: seq<Entry>) {
    forall i :: 0 <= i < |run| ==> run[i].epoch == run[0].epoch
  }

  /** What is sent for the records of one boot: the logs, and their header if there are any. */
  function LogsOfBoot(run: seq<Entry>, epochs: seq<MetaHeader>): seq<Item>
    requires LogsOk(Records(run)) && (run != [] ==> run[0].epoch < |epochs|)
  {
    Traces(Records(run))
    + if run == [] then [] else HeaderEntry("meta_c", [Key("traces")], epochs[run[0].epoch])
  }

  function PointsOfBoot(run: seq<Entry>, epochs: seq<MetaHeader>): seq<Item>
    requires PointsOk(Records(run)) && (run != [] ==> run[0].epoch < |epochs|)
  {
    PointLists(Records(run))
    + if run == [] then [] else HeaderEntry("meta_nc", [Key("metrics"), Key("params")], epochs[run[0].epoch])
  }

  /** Younger than ten boots, so that its slot has not been used again. */
  predicate Young(d: Device, q: seq<Entry>) {
    q != [] ==> q[0].epoch < |d.epochs| && Age(d, q[0]) < 10
  }

  lemma TakenIsOfOneBoot(d: Device, q: seq<Entry>, h: nat, n: nat)
    requires Consistent(d) && (q == d.critical || q == d.nonCritical) && q != [] && Young(d, q)
    ensures var run := Taken(q, h, n);
      && SameBoot(run) && Records(run) == Records(q)[..|run|]
      && (run != [] ==> q[0].rec.meta < MAX_META_RECORDS && d.table.slots[q[0].rec.meta] == d.epochs[run[0].epoch])
  {
    hide Consistent, Consumption.Run, Total;
    var run := Taken(q, h, n);
    RunIsLongest(Records(q), h, q[0].rec.meta, n);
    if run != [] {
      forall i | 0 <= i < |run| ensures q[i].rec.meta == q[0].rec.meta {
        assert Records(q)[i] == q[i].rec;
      }
      HeadIsOfOneBoot(d, q, |run|);
    }
  }

  lemma CriticalPart(d: Device, n: nat)
    requires Consistent(d) && TableShape(d.table) && d.critical != [] && Young(d, d.critical)
    requires LogsOk(Records(d.critical))
    ensures var run := Taken(d.critical, 0, n);
      && SameBoot(run) && LogsOk(Records(run)) && (run != [] ==> run[0].epoch < |d.epochs|)
      && CriticalEntries(Records(d.critical), n, d.table) == LogsOfBoot(run, d.epochs)
  {
    hide Consistent, LogOk, Traces, HeaderEntry, Consumption.Run;
    TakenIsOfOneBoot(d, d.critical, 0, n);
  }

  lemma NonCriticalPart(d: Device, n: nat)
    requires Consistent(d) && TableShape(d.table) && d.nonCritical != [] && Young(d, d.nonCritical)
    requires PointsOk(Records(d.nonCritical)) && n > HEADER
    ensures var run := Taken(d.nonCritical, HEADER, n);
      && SameBoot(run) && PointsOk(Records(run)) && (run != [] ==> run[0].epoch < |d.epochs|)
      && NonCriticalEntries(Records(d.nonCritical), n, d.table) == PointsOfBoot(run, d.epochs)
  {
    hide Consistent, PointItems, HeaderEntry, Consumption.Run;
    TakenIsOfOneBoot(d, d.nonCritical, HEADER, n);
  }

  /**
    In every run of a device: whatever the two read windows cut off, the data of the message is the consumed logs,
    all of one boot, under the header of that boot, and the consumed points, all of one boot, under the header of
    theirs. The oldest record of each ring must be younger than ten boots.
   */
  lemma MessageIsOfOneBootEach(t: MetaTable, hdr: MetaHeader, evs: seq<Event>, cn: nat, pn: nat)
    requires TableShape(t)
    requires var d := BootEpochs.Run(FirstBoot(t, hdr), evs);
      && LogsOk(Records(d.critical)) && PointsOk(Records(d.nonCritical))
      && Young(d, d.critical) && Young(d, d.nonCritical)
      && (cn > 0 ==> d.critical != []) && (pn > 0 ==> d.nonCritical != [])
    ensures var d := BootEpochs.Run(FirstBoot(t, hdr), evs);
      var logs := if cn == 0 then [] else Taken(d.critical, 0, cn);
      var points := if pn <= HEADER then [] else Taken(d.nonCritical, HEADER, pn);
      && SameBoot(logs) && SameBoot(points)
      && LogsOk(Records(logs)) && PointsOk(Records(points))
      && (logs != [] ==> logs[0].epoch < |d.epochs|) && (points != [] ==> points[0].epoch < |d.epochs|)
      && MessageEntries(Records(d.critical), cn, Records(d.nonCritical), pn, d.table)
         == (if cn == 0 then [] else LogsOfBoot(logs, d.epochs))
            + (if pn <= HEADER then [] else PointsOfBoot(points, d.epochs))
  {
    hide BootEpochs.Run, FirstBoot, Consistent, LogOk, Traces, PointLists, HeaderEntry, Consumption.Run, Taken;
    var d := BootEpochs.Run(FirstBoot(t, hdr), evs);
    RunIsConsistent(t, hdr, evs);
    if cn > 0 {
      CriticalPart(d, cn);
    }
    if pn > HEADER {
      NonCriticalPart(d, pn);
    }
  }

  // ---- as a reader of the message finds it ----

  lemma CurrentSlot(t: MetaTable, hdr: MetaHeader, evs: seq<Event>)
    requires TableShape(t)
    ensures var d := BootEpochs.Run(FirstBoot(t, hdr), evs);
      d.table.idx < MAX_META_RECORDS && d.table.slots[d.table.idx] == d.epochs[|d.epochs| - 1]
  {
    hide BootEpochs.Run, FirstBoot;
    RunIsConsistent(t, hdr, evs);
    var d := BootEpochs.Run(FirstBoot(t, hdr), evs);
    SlotsRepeatEveryTen(d.base, |d.epochs| - 1, |d.epochs| - 1);
    hide Slot;
  }

  /** The log records of `run`, and the header of the boot that wrote them. */
  predicate SaysLogs(data: Item, run: seq<Entry>, epochs: seq<MetaHeader>) {
    && IsTraces(Get(data, "traces"), Records(run))
    && (run != [] ==> run[0].epoch < |epochs| && IsHeader(Get(data, "meta_c"), epochs[run[0].epoch], ["traces"]))
  }

  predicate SaysPoints(data: Item, run: seq<Entry>, epochs: seq<MetaHeader>) {
    && PointList(Get(data, "metrics"), OfKind(Records(run), 0))
    && PointList(Get(data, "params"), OfKind(Records(run), 1))
    && (run != [] ==>
          run[0].epoch < |epochs| && IsHeader(Get(data, "meta_nc"), epochs[run[0].epoch], ["metrics", "params"]))
  }

  lemma LogsAreSaid(d: Device, data: Item, n: nat)
    requires Consistent(d) && TableShape(d.table) && d.critical != [] && Young(d, d.critical) && n > 0
    requires CriticalSays(data, Records(d.critical), n, d.table.slots)
    ensures var run := Taken(d.critical, 0, n); SameBoot(run) && SaysLogs(data, run, d.epochs)
  {
    hide Consistent, IsTraces, IsHeader, Consumption.Run;
    TakenIsOfOneBoot(d, d.critical, 0, n);
    if Taken(d.critical, 0, n) != [] {
      EpochIsKnown(d, d.critical);
    }
  }

  lemma EpochIsKnown(d: Device, q: seq<Entry>)
    requires Consistent(d) && (q == d.critical || q == d.nonCritical) && q != []
    ensures q[0].epoch < |d.epochs|
  {
    hide Slot;
  }

  lemma PointsAreSaid(d: Device, data: Item, n: nat)
    requires Consistent(d) && TableShape(d.table) && d.nonCritical != [] && Young(d, d.nonCritical) && n > 4
    requires NonCriticalSays(data, Records(d.nonCritical), n, d.table.slots)
    ensures var run := Taken(d.nonCritical, HEADER, n); SameBoot(run) && SaysPoints(data, run, d.epochs)
  {
    hide Consistent, PointList, IsHeader, Consumption.Run, OfKind;
    TakenIsOfOneBoot(d, d.nonCritical, HEADER, n);
    if Taken(d.nonCritical, HEADER, n) != [] {
      EpochIsKnown(d, d.nonCritical);
    }
  }

  /**
    In every run of a device: the message names the current boot; with the consumed logs, all of one boot, a reader
    finds the hash, generation and boot count of that boot, and with the consumed points those of theirs.
   */
  lemma MessageNamesItsBoots(t: MetaTable, hdr: MetaHeader, evs: seq<Event>, ts: nat, cn: nat, pn: nat)
    requires TableShape(t)
    requires var d := BootEpochs.Run(FirstBoot(t, hdr), evs);
      && LogsOk(Records(d.critical)) && PointsOk(Records(d.nonCritical))
      && Young(d, d.critical) && Young(d, d.nonCritical)
      && (cn > 0 ==> d.critical != []) && (pn > 0 ==> d.nonCritical != [])
    ensures var d := BootEpochs.Run(FirstBoot(t, hdr), evs);
      && d.table.idx < MAX_META_RECORDS
      && var tree := DiagTree(ts, d.table.slots[d.table.idx],
                              MessageEntries(Records(d.critical), cn, Records(d.nonCritical), pn, d.table));
         var diag, data := Get(tree, "diag"), GetGet(tree, "diag", "data");
         && diag.Some? && diag.value.Map? && ReadHeader(diag.value.entries) == Some(d.epochs[|d.epochs| - 1])
         && data.Some?
         && (cn > 0 ==> var run := Taken(d.critical, 0, cn); SameBoot(run) && SaysLogs(data.value, run, d.epochs))
         && (pn > 4 ==>
               var run := Taken(d.nonCritical, HEADER, pn); SameBoot(run) && SaysPoints(data.value, run, d.epochs))
  {
    hide BootEpochs.Run, FirstBoot, Consistent, LogOk, DiagTree, MessageEntries, Taken, CriticalSays, NonCriticalSays,
         ReadHeader, Young, SaysLogs, SaysPoints;
    var d := BootEpochs.Run(FirstBoot(t, hdr), evs);
    RunIsConsistent(t, hdr, evs);
    CurrentSlot(t, hdr, evs);
    var current := d.table.slots[d.table.idx];
    MessageReadsBack(ts, current, Records(d.critical), cn, Records(d.nonCritical), pn, d.table);
    var tree := DiagTree(ts, current, MessageEntries(Records(d.critical), cn, Records(d.nonCritical), pn, d.table));
    var data := GetGet(tree, "diag", "data").value;
    if cn > 0 {
      LogsAreSaid(d, data, cn);
    }
    if pn > 4 {
      PointsAreSaid(d, data, pn);
    }
  }
}
