/**
  The record store: a critical and a non-critical ring, the ten-slot table of boot headers,
  and the operations the diagnostics components call on them.
 */
module RtcStore {
  import opened Bytes
  import opened RingMemory
  import opened RtcRing
  import opened Framing
  import opened RecordWrites

  const MAX_META_RECORDS := 10

  datatype Status = Ok | InvalidArg | InvalidState | Fail | NoMem

  /** What a stored index stands for: the firmware and boot that wrote the record. */
  datatype MetaHeader = MetaHeader(genId: byte, bootCnt: byte, sha: seq<byte>)

  datatype MetaTable = MetaTable(slots: seq<MetaHeader>, idx: nat)

  predicate TableShape(t: MetaTable) {
    |t.slots| == MAX_META_RECORDS && t.idx < U8
  }

  /**
    Every initialisation moves to the next slot. A cold boot first sets the 8-bit index to -1,
    that is 255, and 256 modulo 10 is 6: numbering restarts at slot 6, not at slot 0.
   */
  function InitTable(t: MetaTable, coldBoot: bool, hdr: MetaHeader): (r: MetaTable)
    requires TableShape(t)
    ensures TableShape(r) && r.idx < MAX_META_RECORDS
  {
    var i := ((if coldBoot then U8 - 1 else t.idx) + 1) % MAX_META_RECORDS;
    MetaTable(t.slots[i := hdr], i)
  }

  /** One turn of the overwrite loop: read index byte and header of the oldest record, release all of it. */
  method EvictOldest(ring: Ring, ghost m0: Memory, ghost rs: seq<Record>, ghost k: nat)
    requires ring.Ok() && ring.size <= 0x8000 && |m0.buf| == ring.size && Valid(m0)
    requires k < |rs| && AllStorable(rs) && Queue(m0) == Flatten(rs)
    requires ring.Snapshot() == Replay(m0, DropStores(m0, rs, k))
    modifies ring`readOffset, ring`filled, ring`wrapCnt, ring`journal
    ensures ring.Ok() && ring.filled == old(ring.filled) - |Frame(rs[k])|
    ensures ring.Snapshot() == Replay(m0, DropStores(m0, rs, k + 1))
    ensures DropStores(m0, rs, k + 1)
         == DropStores(m0, rs, k) + [CommitRead(old(ring.Snapshot()), |Frame(rs[k])|)]
    ensures ring.journal == old(ring.journal) + [CommitRead(old(ring.Snapshot()), |Frame(rs[k])|)]
  {
    DropNext(m0, rs, k);
    var tmpBuf := ring.Peek(1 + HEADER);
    assert tmpBuf[1..] == ring.Contents()[1..1 + HEADER];
    var toFree := |tmpBuf| + LeValue(tmpBuf[1..]);
    ring.ReadComplete(toFree);
  }

  lemma NothingDropped(m: Memory, rs: seq<Record>)
    ensures DropStores(m, rs, 0) == [] && Replay(m, []) == m && rs[0..] == rs
  {
  }

  /**
    The overwrite loop: while the record does not fit, evict the oldest. It ends because every turn
    releases a whole record of the framed queue.
   */
  method EvictUntilFits(ring: Ring, req: nat, ghost m0: Memory, ghost rs: seq<Record>) returns (ghost k: nat)
    requires ring.Ok() && req <= ring.size <= 0x8000 && ring.Snapshot() == m0
    requires AllStorable(rs) && Queue(m0) == Flatten(rs)
    modifies ring`readOffset, ring`filled, ring`wrapCnt, ring`journal
    ensures ring.Ok() && ring.size - ring.filled >= req && k == Evicted(rs, ring.size - old(ring.filled), req)
    ensures ring.Snapshot() == Replay(m0, DropStores(m0, rs, k))
    ensures ring.journal == old(ring.journal) + DropStores(m0, rs, k)
  {
    hide Flatten, LeValue, Queue, At, DropStores, Replay, Frame, Storable;
    NothingDropped(m0, rs);
    k := 0;
    ghost var turns := Evicted(rs, ring.size - ring.filled, req);
    while ring.size - ring.filled < req
      invariant ring.Ok() && k <= |rs| && ring.filled == |Flatten(rs[k..])|
      invariant turns == k + Evicted(rs[k..], ring.size - ring.filled, req)
      invariant ring.Snapshot() == Replay(m0, DropStores(m0, rs, k))
      invariant ring.journal == old(ring.journal) + DropStores(m0, rs, k)
      decreases ring.filled
    {
      EvictedStep(rs, k, ring.size - ring.filled, req);
      EvictOldest(ring, m0, rs, k);
      k := k + 1;
    }
  }

  /** The records evicted are a function of what the ring held. */
  method MakeRoom(ring: Ring, req: nat)
    requires ring.Ok() && req <= ring.size <= 0x8000 && Framed(ring.Contents())
    modifies ring`readOffset, ring`filled, ring`wrapCnt, ring`journal
    ensures ring.Ok() && ring.size - ring.filled >= req
    ensures var m0, rs := old(ring.Snapshot()), ParseRecords(old(ring.Contents()));
      var k := Evicted(rs, ring.size - old(ring.filled), req);
      && ring.Snapshot() == Replay(m0, DropStores(m0, rs, k))
      && ring.journal == old(ring.journal) + DropStores(m0, rs, k)
  {
    hide ParseRecords, Flatten, LeValue, LeBytes, Queue, Pow256, DropStores, Evicted;
    ghost var m0, rs := ring.Snapshot(), ParseRecords(ring.Contents());
    ParsedAreStorable(ring.Contents());
    NothingDropped(m0, rs);
    ghost var k := EvictUntilFits(ring, req, m0, rs);
  }

  /** Make room, then write index, length and payload. */
  method OverwriteRecord(ring: Ring, index: byte, data: seq<byte>)
    requires ring.Ok() && ring.size <= 0x8000 && Framed(ring.Contents())
    requires 0 < |data| && 1 + HEADER + |data| <= ring.size
    modifies ring.buf, ring`readOffset, ring`filled, ring`wrapCnt, ring`journal
    ensures ring.Ok() && Framed(ring.Contents())
    ensures var m0, rs := old(ring.Snapshot()), ParseRecords(old(ring.Contents()));
      var k := Evicted(rs, ring.size - old(ring.filled), 1 + HEADER + |data|);
      && ParseRecords(ring.Contents()) == rs[k..] + [Record(index, data)]
      && ring.journal == old(ring.journal) + OverwriteStores(m0, rs, k, Record(index, data))
      && ring.Snapshot() == Replay(m0, OverwriteStores(m0, rs, k, Record(index, data)))
  {
    hide ParseRecords, Flatten, LeValue, LeBytes, Queue, Replay, Pow256, DropStores, Evicted;
    ghost var m0, rs := ring.Snapshot(), ParseRecords(ring.Contents());
    ghost var k := Evicted(rs, ring.size - ring.filled, 1 + HEADER + |data|);
    ParsedAreStorable(ring.Contents());
    MakeRoom(ring, 1 + HEADER + |data|);
    DropsReleaseWholeRecords(m0, rs, k);
    AppendedRecord(rs[k..], Record(index, data));
    ReplayConcat(m0, DropStores(m0, rs, k), RecordStores(ring.Snapshot(), Frame(Record(index, data))));
    ring.WriteRecord(index, LeBytes(|data|, HEADER), data);
  }

  class Store {
    const critical: Ring
    const nonCritical: Ring
    const meta: array<MetaHeader>
    const overwrite: bool
    const criticalWatermark: nat
    const nonCriticalWatermark: nat
    var metaIdx: nat
    var inited: bool

    ghost predicate Shape()
      reads this, critical, critical.buf, nonCritical, nonCritical.buf, meta
    {
      && critical != nonCritical && critical.buf != nonCritical.buf
      && critical.size == critical.buf.Length && 0 < critical.size <= 0x8000
      && nonCritical.size == nonCritical.buf.Length && 0 < nonCritical.size <= 0x8000
      && meta.Length == MAX_META_RECORDS && metaIdx < U8
      && (inited ==> critical.Ok() && nonCritical.Ok() && metaIdx < MAX_META_RECORDS)
    }

    ghost function Table(): MetaTable
      reads this, meta
    {
      MetaTable(meta[..], metaIdx)
    }

    /** `critical`, `nonCritical` and `meta` are the retained memory; the `Ring` size bound is `RingIsQueueExactly`. */
    constructor (critical: Ring, nonCritical: Ring, meta: array<MetaHeader>, metaIdx: nat,
                 overwrite: bool, criticalWatermark: nat, nonCriticalWatermark: nat)
      requires critical != nonCritical && critical.buf != nonCritical.buf
      requires critical.size == critical.buf.Length && 0 < critical.size <= 0x8000
      requires nonCritical.size == nonCritical.buf.Length && 0 < nonCritical.size <= 0x8000
      requires meta.Length == MAX_META_RECORDS && metaIdx < U8
      ensures Shape() && !inited && this.critical == critical && this.nonCritical == nonCritical
      ensures this.meta == meta && this.metaIdx == metaIdx && this.overwrite == overwrite
    {
      this.critical, this.nonCritical, this.meta, this.metaIdx := critical, nonCritical, meta, metaIdx;
      this.overwrite, inited := overwrite, false;
      this.criticalWatermark, this.nonCriticalWatermark := criticalWatermark, nonCriticalWatermark;
    }

    /** `rtc_store_init`: `hdr` is the header built from the application image and the persisted counters. */
    method Init(coldBoot: bool, hdr: MetaHeader) returns (err: Status)
      requires Shape()
      modifies this`metaIdx, this`inited, meta
      modifies critical`readOffset, critical`filled, critical`journal
      modifies nonCritical`readOffset, nonCritical`filled, nonCritical`journal
      ensures Shape() && inited && err == (if old(inited) then InvalidState else Status.Ok)
      ensures err.Ok? ==> Table() == InitTable(old(Table()), coldBoot, hdr)
      ensures err.Ok? ==> critical.Snapshot() == Recover(old(critical.Snapshot()), coldBoot)
      ensures err.Ok? ==> nonCritical.Snapshot() == Recover(old(nonCritical.Snapshot()), coldBoot)
      ensures !err.Ok? ==> Table() == old(Table())
      ensures !err.Ok? ==> critical.Snapshot() == old(critical.Snapshot())
      ensures !err.Ok? ==> nonCritical.Snapshot() == old(nonCritical.Snapshot())
    {
      if inited {
        return InvalidState;
      }
      critical.Init(coldBoot);
      nonCritical.Init(coldBoot);
      if coldBoot {
        metaIdx := U8 - 1;
      }
      metaIdx := (metaIdx + 1) % MAX_META_RECORDS;
      meta[metaIdx] := hdr;
      inited := true;
      return Status.Ok;
    }

    method Deinit()
      requires Shape()
      modifies this`inited
      ensures Shape() && !inited
    {
      inited := false;
    }

    /** `rtc_store_get_meta_record_by_index`. */
    method MetaByIndex(idx: byte) returns (hdr: Option<MetaHeader>)
      requires Shape()
      ensures hdr == if idx < MAX_META_RECORDS then Some(Table().slots[idx]) else None
    {
      if idx >= MAX_META_RECORDS {
        return None;
      }
      return Some(meta[idx]);
    }

    /**
      `rtc_store_critical_data_write`: refused when it does not fit, otherwise the index byte and the
      data become visible together. `writeFail` and `lowMem` are the two events it posts.
     */
    method WriteCritical(data: seq<byte>) returns (err: Status, writeFail: bool, lowMem: bool)
      requires Shape()
      modifies critical.buf, critical`readOffset, critical`filled, critical`journal
      ensures Shape()
      ensures err == if |data| == 0 then InvalidArg
                     else if !inited then InvalidState
                     else if |data| + 1 > critical.size then Fail
                     else if critical.size - |old(if inited then critical.Contents() else [])| < |data| + 1 then NoMem
                     else Status.Ok
      ensures err.Ok? ==> critical.Contents() == old(critical.Contents()) + [metaIdx] + data
      ensures err.Ok? ==>
        critical.Snapshot() == old(Replay(critical.Snapshot(), RecordStores(critical.Snapshot(), [metaIdx] + data)))
      ensures err.Ok? ==>
        critical.journal == old(critical.journal + RecordStores(critical.Snapshot(), [metaIdx] + data))
      ensures !err.Ok? ==> critical.Snapshot() == old(critical.Snapshot()) && critical.journal == old(critical.journal)
      ensures writeFail == err.NoMem?
      ensures err.Ok? || err.NoMem? ==> lowMem == (critical.size - |critical.Contents()| < criticalWatermark)
    {
      err, writeFail, lowMem := Status.Ok, false, false;
      if |data| == 0 {
        return InvalidArg, false, false;
      }
      if !inited {
        return InvalidState, false, false;
      }
      var lenReal := |data| + 1;
      if lenReal > critical.size {
        return Fail, false, false;
      }
      var currFree := critical.FreeBytes();
      if currFree < lenReal {
        err, writeFail := NoMem, true;
      } else {
        critical.WriteRecord(metaIdx, [], data);
        assert [metaIdx] + [] + data == [metaIdx] + data;
        currFree := critical.FreeBytes();
      }
      lowMem := currFree < criticalWatermark;
    }

    /**
      `rtc_store_non_critical_data_write`. `groupOk` says that the group name is a constant string and
      `lockFree` that the lock was taken without waiting. With overwriting on, the oldest whole records
      make room; otherwise a record that does not fit is refused.
     */
    method WriteNonCritical(groupOk: bool, data: seq<byte>, lockFree: bool) returns (err: Status, lowMem: bool)
      requires Shape() && (inited && overwrite ==> Framed(nonCritical.Contents()))
      modifies nonCritical.buf, nonCritical`readOffset, nonCritical`filled, nonCritical`wrapCnt, nonCritical`journal
      ensures Shape() && inited == old(inited)
      ensures err == if !groupOk || |data| == 0 then InvalidArg
                     else if !inited then InvalidState
                     else if 1 + HEADER + |data| > nonCritical.size || !lockFree then Fail
                     else if !overwrite && nonCritical.size - old(nonCritical.filled) < 1 + HEADER + |data| then NoMem
                     else Status.Ok
      ensures !err.Ok? ==> nonCritical.Snapshot() == old(nonCritical.Snapshot())
      ensures err.Ok? && !overwrite ==>
        nonCritical.Contents() == old(nonCritical.Contents()) + Frame(Record(metaIdx, data))
      ensures err.Ok? && !overwrite ==>
        var m := old(nonCritical.Snapshot());
        nonCritical.Snapshot() == Replay(m, RecordStores(m, Frame(Record(metaIdx, data))))
      ensures err.Ok? && overwrite ==>
        var rs := ParseRecords(old(nonCritical.Contents()));
        var k := Evicted(rs, nonCritical.size - old(nonCritical.filled), 1 + HEADER + |data|);
        && ParseRecords(nonCritical.Contents()) == rs[k..] + [Record(metaIdx, data)]
        && Framed(nonCritical.Contents())
        && nonCritical.journal
           == old(nonCritical.journal) + OverwriteStores(old(nonCritical.Snapshot()), rs, k, Record(metaIdx, data))
        && nonCritical.Snapshot()
           == Replay(old(nonCritical.Snapshot()),
                     OverwriteStores(old(nonCritical.Snapshot()), rs, k, Record(metaIdx, data)))
      ensures lowMem == (err.NoMem? || (err.Ok? && nonCritical.size - |nonCritical.Contents()| < nonCriticalWatermark))
    {
      hide ParseRecords, Flatten, LeValue, LeBytes, Queue, Replay, Pow256, DropStores, Evicted;
      if !groupOk || |data| == 0 {
        return InvalidArg, false;
      }
      if !inited {
        return InvalidState, false;
      }
      var reqFree := HEADER + |data| + 1;
      if reqFree > nonCritical.size {
        return Fail, false;
      }
      if !lockFree {
        return Fail, false;
      }
      if overwrite {
        OverwriteRecord(nonCritical, metaIdx, data);
      } else {
        var free := nonCritical.FreeBytes();
        if free < reqFree {
          return NoMem, true;
        }
        nonCritical.WriteRecord(metaIdx, LeBytes(|data|, HEADER), data);
      }
      var currFree := nonCritical.FreeBytes();
      err, lowMem := Status.Ok, currFree < nonCriticalWatermark;
    }

    method ReadCritical(want: nat) returns (data: Option<seq<byte>>)
      requires Shape()
      ensures data == if want == 0 || !inited then None
                      else Some(critical.Contents()[..Min(want, |critical.Contents()|)])
    {
      if want == 0 || !inited {
        return None;
      }
      var out := critical.Peek(want);
      return Some(out);
    }

    method ReadNonCritical(want: nat) returns (data: Option<seq<byte>>)
      requires Shape()
      ensures data == if want == 0 || !inited then None
                      else Some(nonCritical.Contents()[..Min(want, |nonCritical.Contents()|)])
    {
      if want == 0 || !inited {
        return None;
      }
      var out := nonCritical.Peek(want);
      return Some(out);
    }

    method ReleaseCritical(len: nat) returns (err: Status)
      requires Shape()
      modifies critical`readOffset, critical`filled, critical`wrapCnt, critical`journal
      ensures Shape()
      ensures err == if !inited then InvalidState else if old(critical.filled) < len then Fail else Status.Ok
      ensures err.Ok? ==> critical.Contents() == old(critical.Contents())[len..]
      ensures err.Ok? ==>
        critical.Snapshot() == old(Apply(critical.Snapshot(), CommitRead(critical.Snapshot(), len)))
      ensures !err.Ok? ==> critical.Snapshot() == old(critical.Snapshot())
    {
      if !inited {
        return InvalidState;
      }
      if critical.filled < len {
        return Fail;
      }
      critical.ReadComplete(len);
      return Status.Ok;
    }

    method ReleaseNonCritical(len: nat) returns (err: Status)
      requires Shape()
      modifies nonCritical`readOffset, nonCritical`filled, nonCritical`wrapCnt, nonCritical`journal
      ensures Shape()
      ensures err == if !inited then InvalidState else if old(nonCritical.filled) < len then Fail else Status.Ok
      ensures err.Ok? ==> nonCritical.Contents() == old(nonCritical.Contents())[len..]
      ensures err.Ok? ==>
        nonCritical.Snapshot() == old(Apply(nonCritical.Snapshot(), CommitRead(nonCritical.Snapshot(), len)))
      ensures !err.Ok? ==> nonCritical.Snapshot() == old(nonCritical.Snapshot())
    {
      if !inited {
        return InvalidState;
      }
      if nonCritical.filled < len {
        return Fail;
      }
      nonCritical.ReadComplete(len);
      return Status.Ok;
    }

    /**
      `rtc_store_critical_data_read_and_release` asks to release `want` bytes, not the bytes it read:
      what it returned stays queued exactly when fewer than `want` bytes were there. It is two sections; this
      is the call that no other task comes between. `RingRuns.ReadThenReleaseExactly` says what a write does.
     */
    method ReadAndReleaseCritical(want: nat) returns (data: Option<seq<byte>>)
      requires Shape()
      modifies critical`readOffset, critical`filled, critical`wrapCnt, critical`journal
      ensures Shape() && data.Some? == (want > 0 && inited)
      ensures data.Some? ==> data.value == old(critical.Contents())[..Min(want, |old(critical.Contents())|)]
      ensures data.Some? ==>
        critical.Contents() == old(critical.Contents()[if want <= critical.filled then want else 0..])
    {
      data := ReadCritical(want);
      if data.Some? && |data.value| > 0 {
        var _ := ReleaseCritical(want);
      }
    }

    /**
      `rtc_store_non_critical_data_read_and_release` releases what it read. It is two sections, too; this is the
      call that no other task comes between. `RecordRuns.ReleaseIsExactWhen` says when a release is of what was read.
     */
    method ReadAndReleaseNonCritical(want: nat) returns (data: Option<seq<byte>>)
      requires Shape()
      modifies nonCritical`readOffset, nonCritical`filled, nonCritical`wrapCnt, nonCritical`journal
      ensures Shape() && data.Some? == (want > 0 && inited)
      ensures data.Some? ==> data.value + nonCritical.Contents() == old(nonCritical.Contents())
      ensures data.Some? ==> |data.value| == Min(want, |old(nonCritical.Contents())|)
    {
      data := ReadNonCritical(want);
      if data.Some? && |data.value| > 0 {
        var _ := ReleaseNonCritical(|data.value|);
      }
    }

    method DiscardData() returns (err: Status)
      requires Shape()
      modifies critical`readOffset, critical`filled, critical`journal
      modifies nonCritical`readOffset, nonCritical`filled, nonCritical`journal
      ensures Shape() && err == if inited then Status.Ok else InvalidState
      ensures inited ==> critical.Contents() == [] && nonCritical.Contents() == []
      ensures inited ==> critical.Snapshot() == old(critical.Snapshot()).(readOffset := 0, filled := 0)
      ensures inited ==> nonCritical.Snapshot() == old(nonCritical.Snapshot()).(readOffset := 0, filled := 0)
      ensures !inited ==> critical.Snapshot() == old(critical.Snapshot())
      ensures !inited ==> nonCritical.Snapshot() == old(nonCritical.Snapshot())
    {
      if !inited {
        return InvalidState;
      }
      critical.Discard();
      nonCritical.Discard();
      return Status.Ok;
    }
  }
}
