/**
  Which boot a queued record belongs to. Records carry only the index of a slot in a table of ten
  that every initialisation advances; here each record also remembers, for the proof, the boot that
  wrote it, and runs of boots, writes to both rings, releases and discards are followed.
 */
module BootEpochs {
  import opened Bytes
  import opened Framing
  import opened RtcStore

  datatype Entry = Entry(rec: Record, epoch: nat)

  /** `epochs` lists the headers of all initialisations so far; `base` is the latest cold one. */
  datatype Device = Device(
    table: MetaTable, critical: seq<Entry>, nonCritical: seq<Entry>, epochs: seq<MetaHeader>, base: nat)

  datatype Event =
    | Boot(cold: bool, hdr: MetaHeader)
    | WriteCritical(data: seq<byte>)
    | WriteNonCritical(data: seq<byte>)
    | ReleaseCritical(n: nat)
    | ReleaseNonCritical(n: nat)
    | Discard

  /** The oldest `n` go, or none when there are fewer. */
  function Drop(q: seq<Entry>, n: nat): seq<Entry> {
    if n <= |q| then q[n..] else q
  }

  function NewEntry(d: Device, data: seq<byte>): Entry
    requires TableShape(d.table) && |d.epochs| > 0
  {
    Entry(Record(d.table.idx, data), |d.epochs| - 1)
  }

  function Step(d: Device, ev: Event): Device
    requires TableShape(d.table) && |d.epochs| > 0
    ensures TableShape(Step(d, ev).table) && |Step(d, ev).epochs| > 0
  {
    match ev
    case Boot(cold, hdr) =>
      Device(InitTable(d.table, cold, hdr), if cold then [] else d.critical, if cold then [] else d.nonCritical,
             d.epochs + [hdr], if cold then |d.epochs| else d.base)
    case WriteCritical(data) => d.(critical := d.critical + [NewEntry(d, data)])
    case WriteNonCritical(data) => d.(nonCritical := d.nonCritical + [NewEntry(d, data)])
    case ReleaseCritical(n) => d.(critical := Drop(d.critical, n))
    case ReleaseNonCritical(n) => d.(nonCritical := Drop(d.nonCritical, n))
    case Discard => d.(critical := [], nonCritical := [])
  }

  /** Retained memory holds anything before the first boot, which is a cold one. */
  function FirstBoot(t: MetaTable, hdr: MetaHeader): (r: Device)
    requires TableShape(t)
    ensures TableShape(r.table) && |r.epochs| > 0
  {
    Device(InitTable(t, true, hdr), [], [], [hdr], 0)
  }

  function Run(d: Device, evs: seq<Event>): (r: Device)
    requires TableShape(d.table) && |d.epochs| > 0
    ensures TableShape(r.table) && |r.epochs| > 0
    decreases |evs|
  {
    if evs == [] then d else Run(Step(d, evs[0]), evs[1..])
  }

  /** The slot an initialisation uses: a cold boot starts the table at slot 6. */
  function Slot(base: nat, epoch: nat): nat
    requires base <= epoch
  {
    (6 + epoch - base) % MAX_META_RECORDS
  }

  function Age(d: Device, e: Entry): nat
    requires e.epoch < |d.epochs|
  {
    |d.epochs| - 1 - e.epoch
  }

  /** The ten slots hold the headers of the last ten boots since the cold one. */
  ghost predicate TableOk(d: Device) {
    && TableShape(d.table) && d.base < |d.epochs|
    && d.table.idx == Slot(d.base, |d.epochs| - 1)
    && forall e :: d.base <= e < |d.epochs| && |d.epochs| - 10 <= e ==> d.table.slots[Slot(d.base, e)] == d.epochs[e]
  }

  /** Queued records carry the slot of the boot that wrote them, oldest boot first. */
  ghost predicate QueueOk(q: seq<Entry>, base: nat, boots: nat) {
    && (forall i :: 0 <= i < |q| ==> base <= q[i].epoch < boots && q[i].rec.meta == Slot(base, q[i].epoch))
    && (forall i, j :: 0 <= i < j < |q| ==> q[i].epoch <= q[j].epoch)
  }

  ghost predicate Consistent(d: Device) {
    TableOk(d) && QueueOk(d.critical, d.base, |d.epochs|) && QueueOk(d.nonCritical, d.base, |d.epochs|)
  }

  lemma SlotsRepeatEveryTen(base: nat, x: nat, y: nat)
    requires base <= x <= y
    ensures Slot(base, x) == Slot(base, y) <==> (y - x) % MAX_META_RECORDS == 0
    ensures Slot(base, x) < MAX_META_RECORDS
  {
  }

  lemma SlotAdvances(base: nat, k: nat)
    requires base < k
    ensures (Slot(base, k - 1) + 1) % MAX_META_RECORDS == Slot(base, k)
    ensures Slot(k, k) == U8 % MAX_META_RECORDS
  {
  }

  lemma BootKeepsTable(d: Device, cold: bool, hdr: MetaHeader)
    requires TableOk(d)
    ensures TableOk(Step(d, Boot(cold, hdr)))
  {
    var n := Step(d, Boot(cold, hdr));
    var k := |d.epochs|;
    SlotAdvances(d.base, k);
    hide Slot;
    assert n.table.idx == Slot(n.base, k) && n.epochs == d.epochs + [hdr];
    assert n.table.slots == d.table.slots[n.table.idx := hdr];
    hide InitTable, Step;
    forall e | n.base <= e < |n.epochs| && |n.epochs| - 10 <= e
      ensures n.table.slots[Slot(n.base, e)] == n.epochs[e]
    {
      if e < k {
        OlderSlotIsKept(d, e, k, hdr);
      }
    }
  }

  lemma OlderSlotIsKept(d: Device, e: nat, k: nat, hdr: MetaHeader)
    requires TableOk(d) && k == |d.epochs| && d.base <= e < k <= e + 9
    ensures d.table.slots[Slot(d.base, k) := hdr][Slot(d.base, e)] == d.epochs[e]
  {
    SlotsRepeatEveryTen(d.base, e, k);
    hide Slot;
  }

  lemma QueueGrows(q: seq<Entry>, base: nat, boots: nat, e: Entry)
    requires QueueOk(q, base, boots) && base < boots
    requires e.epoch == boots - 1 && e.rec.meta == Slot(base, boots - 1)
    ensures QueueOk(q + [e], base, boots)
  {
    hide Slot;
  }

  lemma QueueDrops(q: seq<Entry>, base: nat, boots: nat, n: nat)
    requires QueueOk(q, base, boots)
    ensures QueueOk(Drop(q, n), base, boots) && QueueOk(q, base, boots + 1)
    ensures forall b, k :: QueueOk([], b, k)
  {
    hide Slot;
  }

  lemma StepKeeps(d: Device, ev: Event)
    requires Consistent(d)
    ensures Consistent(Step(d, ev))
  {
    hide Slot, InitTable, Drop, QueueOk;
    QueueDrops(d.critical, d.base, |d.epochs|, if ev.ReleaseCritical? then ev.n else 0);
    QueueDrops(d.nonCritical, d.base, |d.epochs|, if ev.ReleaseNonCritical? then ev.n else 0);
    match ev
    case Boot(cold, hdr) => BootKeepsTable(d, cold, hdr);
    case WriteCritical(data) => QueueGrows(d.critical, d.base, |d.epochs|, NewEntry(d, data));
    case WriteNonCritical(data) => QueueGrows(d.nonCritical, d.base, |d.epochs|, NewEntry(d, data));
    case _ =>
  }

  lemma {:induction false} RunKeeps(d: Device, evs: seq<Event>)
    requires Consistent(d)
    ensures Consistent(Run(d, evs))
    decreases |evs|
  {
    if evs != [] {
      StepKeeps(d, evs[0]);
      RunKeeps(Step(d, evs[0]), evs[1..]);
    }
  }

  lemma RunIsConsistent(t: MetaTable, hdr: MetaHeader, evs: seq<Event>)
    requires TableShape(t)
    ensures Consistent(Run(FirstBoot(t, hdr), evs))
  {
    RunKeeps(FirstBoot(t, hdr), evs);
  }

  /** The header a queued record resolves to, whatever its age: that of the latest boot using its slot. */
  lemma ResolvesToLatestOfSlot(d: Device, e: Entry)
    requires Consistent(d) && (e in d.critical || e in d.nonCritical)
    ensures e.epoch < |d.epochs| && e.rec.meta < MAX_META_RECORDS
    ensures d.table.slots[e.rec.meta] == d.epochs[|d.epochs| - 1 - Age(d, e) % MAX_META_RECORDS]
  {
    hide Slot;
    var a := Age(d, e);
    var latest := |d.epochs| - 1 - a % MAX_META_RECORDS;
    assert latest - e.epoch == a - a % MAX_META_RECORDS;
    assert (latest - e.epoch) % MAX_META_RECORDS == 0;
    SlotsRepeatEveryTen(d.base, e.epoch, latest);
    assert Slot(d.base, latest) == Slot(d.base, e.epoch);
  }

  predicate Distinct(hs: seq<MetaHeader>) {
    forall j, k :: 0 <= j < k < |hs| ==> hs[j] != hs[k]
  }

  /** In every run a record resolves to the boot that wrote it exactly while fewer than ten boots followed. */
  lemma AttributionIsExact(t: MetaTable, hdr: MetaHeader, evs: seq<Event>, e: Entry)
    requires TableShape(t)
    requires var d := Run(FirstBoot(t, hdr), evs); e in d.critical || e in d.nonCritical
    ensures var d := Run(FirstBoot(t, hdr), evs);
      e.epoch < |d.epochs| && e.rec.meta < MAX_META_RECORDS
    ensures var d := Run(FirstBoot(t, hdr), evs);
      var found, own := d.table.slots[e.rec.meta], d.epochs[e.epoch];
      && (Age(d, e) < 10 ==> found == own)
      && (Distinct(d.epochs) ==> (found == own <==> Age(d, e) < 10))
  {
    hide Slot, Run, FirstBoot;
    var d := Run(FirstBoot(t, hdr), evs);
    RunIsConsistent(t, hdr, evs);
    ResolvesToLatestOfSlot(d, e);
  }

  /**
    The encoder sends the records at the head of a ring that share the first index under one header. While the
    oldest queued record is younger than ten boots they are all of one boot, and the header is that boot's.
   */
  lemma HeadIsOfOneBoot(d: Device, q: seq<Entry>, n: nat)
    requires Consistent(d) && (q == d.critical || q == d.nonCritical)
    requires 0 < n <= |q| && q[0].epoch < |d.epochs| && Age(d, q[0]) < 10
    requires forall i :: 0 <= i < n ==> q[i].rec.meta == q[0].rec.meta
    ensures forall i :: 0 <= i < n ==> q[i].epoch == q[0].epoch
    ensures q[0].rec.meta < MAX_META_RECORDS && d.table.slots[q[0].rec.meta] == d.epochs[q[0].epoch]
  {
    hide Slot;
    ResolvesToLatestOfSlot(d, q[0]);
    forall i | 0 <= i < n ensures q[i].epoch == q[0].epoch {
      SlotsRepeatEveryTen(d.base, q[0].epoch, q[i].epoch);
    }
  }
}
