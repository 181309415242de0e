/**
  The steps of whole runs, on either ring, as calls on the store. Writes cut short by a reset are not calls that
  return; what they leave is in the journal of the call.
 */
module StoreSteps {
  import opened Bytes
  import opened RingMemory
  import opened Framing
  import opened RecordWrites
  import RingRuns
  import RecordRuns
  import opened RtcStore

  /** One step of a run of the critical ring. A write carries the index of the current boot in front. */
  method PerformCritical(store: Store, op: RingRuns.Op, hdr: MetaHeader)
    requires store.Shape() && store.inited && !op.TornWrite?
    requires op.Write? ==> |op.data| > 1 && op.data[0] == store.metaIdx && |op.data| <= store.critical.size
    modifies store`metaIdx, store`inited, store.meta
    modifies store.critical.buf, store.critical`readOffset, store.critical`filled, store.critical`wrapCnt
    modifies store.critical`journal
    modifies store.nonCritical`readOffset, store.nonCritical`filled, store.nonCritical`journal
    ensures store.Shape() && store.inited
    ensures store.critical.Snapshot() == RingRuns.Exec(old(store.critical.Snapshot()), op)
  {
    hide Queue, Replay, AppendStores;
    match op {
      case Write(data) =>
        assert [store.metaIdx] + data[1..] == data;
        var _, _, _ := store.WriteCritical(data[1..]);
      case Release(len) => var _ := store.ReleaseCritical(len);
      case Discard => var _ := store.DiscardData();
      case Boot(cold) =>
        store.Deinit();
        var _ := store.Init(cold, hdr);
    }
  }

  /** Overwriting nothing is appending. */
  lemma NothingOverwritten(m: Memory, rs: seq<Record>, rec: Record)
    ensures OverwriteStores(m, rs, 0, rec) == RecordStores(m, Frame(rec))
  {
  }

  /**
    One step of a run of the non-critical ring; `consumed` is what the task that sends holds between its read and
    its release, and `data` is what a read finds.
   */
  method PerformNonCritical(store: Store, op: RecordRuns.Op, consumed: nat, hdr: MetaHeader, ghost s: RecordRuns.Ring)
    returns (data: seq<byte>)
    requires store.Shape() && store.inited && !op.TornPut? && s.mem == store.nonCritical.Snapshot()
    requires store.overwrite ==> Framed(store.nonCritical.Contents())
    requires op.Put? ==> op.rec.meta == store.metaIdx
    requires op.Read? ==> op.window > 0
    requires op.Release? ==> s.pending.Some? && s.pending.value.consumed == consumed
    modifies store`metaIdx, store`inited, store.meta
    modifies store.critical`readOffset, store.critical`filled, store.critical`journal
    modifies store.nonCritical.buf, store.nonCritical`readOffset, store.nonCritical`filled, store.nonCritical`wrapCnt
    modifies store.nonCritical`journal
    ensures store.Shape() && store.inited
    ensures store.nonCritical.Snapshot() == RecordRuns.Exec(s, store.overwrite, op).mem
    ensures op.Read? ==> data == Queue(s.mem)[..Min(op.window, |Queue(s.mem)|)]
  {
    hide Queue, Replay, OverwriteStores, ParseRecords, Flatten, RecordStores, Evicted;
    data := [];
    match op {
      case Put(rec) =>
        NothingOverwritten(s.mem, ParseRecords(Queue(s.mem)), rec);
        var _, _ := store.WriteNonCritical(true, rec.payload, true);
      case Read(window) =>
        var found := store.ReadNonCritical(window);
        data := found.value;
      case Release => var _ := store.ReleaseNonCritical(consumed);
      case Discard => var _ := store.DiscardData();
      case Boot(cold) =>
        store.Deinit();
        var _ := store.Init(cold, hdr);
    }
  }
}
