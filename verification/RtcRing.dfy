/** One ring buffer in retained memory, changed in place; every store it makes is also journalled. */
module RtcRing {
  import opened Bytes
  import opened RingMemory

  function ByteStores(pos: nat, data: seq<byte>): (s: seq<StoreOp>)
    ensures |s| == |data|
  {
    seq(|data|, i requires 0 <= i < |data| => PutByte(pos + i, data[i]))
  }

  /** A piece whose append positions are consecutive is written by one copy. */
  lemma OneCopy(m: Memory, data: seq<byte>, offset: nat, pos: nat)
    requires forall k :: offset <= k < offset + |data| ==> AppendPos(m, k) == pos + (k - offset)
    ensures ByteStores(pos, data) == AppendStores(m, data, offset)
  {
    var a, b := AppendStores(m, data, offset), ByteStores(pos, data);
    forall i | 0 <= i < |data| ensures a[i] == b[i] {
      assert AppendPos(m, offset + i) == pos + i;
    }
  }

  /** A piece that crosses the wrap point is written by two. */
  lemma TwoCopies(m: Memory, data: seq<byte>, offset: nat, cut: nat)
    requires cut <= |data| && FreeAtEnd(m) == offset + cut > 0
    ensures ByteStores(WriteOffset(m) + offset, data[..cut]) + ByteStores(0, data[cut..])
         == AppendStores(m, data, offset)
  {
    OneCopy(m, data[..cut], offset, WriteOffset(m) + offset);
    OneCopy(m, data[cut..], offset + cut, 0);
    var a := AppendStores(m, data, offset);
    assert a[..cut] == AppendStores(m, data[..cut], offset);
    assert forall i :: 0 <= i < |data| - cut ==> a[cut..][i] == AppendStores(m, data[cut..], offset + cut)[i];
    assert a[cut..] == AppendStores(m, data[cut..], offset + cut);
  }

  /** Bytes released since boot, as the wrap counter and the read offset give them. */
  function Progress(wraps: nat, size: nat, readOffset: nat): nat {
    wraps * size + readOffset
  }

  lemma ProgressMoves(wraps: nat, size: nat, readOffset: nat, len: nat)
    ensures Progress(wraps, size, readOffset + len) == Progress(wraps, size, readOffset) + len
  {
  }

  lemma ProgressWraps(wraps: nat, size: nat, readOffset: nat)
    ensures Progress(wraps + 1, size, readOffset) == Progress(wraps, size, readOffset + size)
  {
  }

  class Ring {
    const buf: array<byte>
    const size: nat
    var readOffset: nat
    var filled: nat
    var wrapCnt: nat
    /** All stores made to retained memory so far, in order. */
    ghost var journal: seq<StoreOp>

    ghost predicate Ok()
      reads this, buf
    {
      size == buf.Length && Valid(Snapshot())
    }

    ghost function Snapshot(): Memory
      reads this, buf
    {
      Memory(buf[..], readOffset, filled)
    }

    ghost function Contents(): seq<byte>
      reads this, buf
      requires Ok()
    {
      Queue(Snapshot())
    }

    /** The retained bytes as they are found at boot; `Init` decides what of them to keep. */
    constructor (retained: array<byte>, readOffset: nat, filled: nat)
      requires 0 < retained.Length < U16 && readOffset < U16 && filled < U16
      ensures buf == retained && size == retained.Length && journal == [] && wrapCnt == 0
      ensures Snapshot() == Memory(retained[..], readOffset, filled)
    {
      buf := retained;
      size := retained.Length;
      this.readOffset := readOffset;
      this.filled := filled;
      wrapCnt := 0;
      journal := [];
    }

    /** `rtc_store_rbuf_init`: clear on a cold boot, then check integrity. */
    method Init(coldBoot: bool)
      requires size == buf.Length && 0 < size < U16
      modifies this`readOffset, this`filled, this`journal
      ensures Ok() && Snapshot() == Recover(old(Snapshot()), coldBoot)
    {
      if coldBoot {
        StoreInfo(0, 0);
      }
      if filled > size || readOffset > size {
        StoreInfo(0, 0);
      }
    }

    /** The single 32-bit store of `info.value`. */
    method StoreInfo(r: nat, f: nat)
      modifies this`readOffset, this`filled, this`journal
      ensures Snapshot() == Apply(old(Snapshot()), PutInfo(r, f))
      ensures journal == old(journal) + [PutInfo(r, f)]
    {
      readOffset, filled := r, f;
      journal := journal + [PutInfo(r, f)];
    }

    method FreeBytes() returns (free: nat)
      requires Ok()
      ensures free == size - |Contents()|
    {
      free := size - filled;
    }

    method Discard()
      requires Ok()
      modifies this`readOffset, this`filled, this`journal
      ensures Ok() && Contents() == [] && Snapshot() == old(Snapshot()).(readOffset := 0, filled := 0)
    {
      StoreInfo(0, 0);
    }

    /** `rtc_store_read_complete`: both fields are changed in a copy and committed together. */
    method ReadComplete(len: nat)
      requires Ok() && len <= filled
      modifies this`readOffset, this`filled, this`wrapCnt, this`journal
      ensures Ok() && journal == old(journal) + [CommitRead(old(Snapshot()), len)]
      ensures Snapshot() == Apply(old(Snapshot()), CommitRead(old(Snapshot()), len))
      ensures size <= 0x8000 ==> Contents() == old(Contents())[len..]
      ensures 2 * size < U16 ==> Progress(wrapCnt, size, readOffset) == old(Progress(wrapCnt, size, readOffset)) + len
    {
      hide Queue, At, Progress;
      ProgressMoves(wrapCnt, size, readOffset, len);
      var f := (filled - len) % U16;
      var r := (readOffset + len) % U16;
      if r > size {
        r := r - size;
        wrapCnt := wrapCnt + 1;
        ProgressWraps(old(wrapCnt), size, r);
      }
      if size <= 0x8000 {
        ReleaseIsAtomic(Snapshot(), len);
      }
      StoreInfo(r, f);
    }

    /** `rtc_store_write_complete`: the store that makes `len` written bytes part of the queue. */
    method WriteComplete(len: nat)
      requires Ok() && filled + len <= size
      modifies this`readOffset, this`filled, this`journal
      ensures Ok() && journal == old(journal) + [CommitWrite(old(Snapshot()), len)]
      ensures Snapshot() == Apply(old(Snapshot()), CommitWrite(old(Snapshot()), len))
    {
      StoreInfo(readOffset, (filled + len) % U16);
    }

    /** `memcpy` into the buffer, one byte store at a time. */
    method CopyIn(pos: nat, data: seq<byte>)
      requires Ok() && pos + |data| <= size
      modifies buf, this`journal
      ensures Ok() && journal == old(journal) + ByteStores(pos, data)
      ensures Snapshot() == Replay(old(Snapshot()), ByteStores(pos, data))
    {
      ghost var all := ByteStores(pos, data);
      ghost var m0 := Snapshot();
      var i := 0;
      while i < |data|
        invariant 0 <= i <= |data| && Ok()
        invariant journal == old(journal) + all[..i]
        invariant Snapshot() == Replay(m0, all[..i])
        invariant readOffset == old(readOffset) && filled == old(filled)
      {
        assert all[..i + 1] == all[..i] + [all[i]];
        ReplayConcat(m0, all[..i], [all[i]]);
        ReplayOne(Snapshot(), all[i]);
        buf[pos + i] := data[i];
        journal := journal + [all[i]];
        i := i + 1;
      }
      assert all[..i] == all;
    }

    /**
      `rtc_store_write_at_offset`: bytes `offset..` of the record being written, in one or two copies.
      The 16-bit `write_offset` is kept as the code computes it.
     */
    method WriteAtOffset(data: seq<byte>, offset: nat)
      requires Ok() && filled + offset + |data| <= size
      modifies buf, this`journal
      ensures Ok() && readOffset == old(readOffset) && filled == old(filled)
      ensures journal == old(journal) + AppendStores(old(Snapshot()), data, offset)
      ensures Snapshot() == Replay(old(Snapshot()), AppendStores(old(Snapshot()), data, offset))
    {
      hide Queue, Replay, ByteStores, AppendStores, At;
      ghost var m := Snapshot();
      var writeOffset := (filled + readOffset) % U16;
      if writeOffset >= size {
        writeOffset := writeOffset - size;
      }
      var freeAtEnd := if readOffset + filled < size then size - (filled + readOffset) else 0;
      assert writeOffset == WriteOffset(m) && freeAtEnd == FreeAtEnd(m);
      if freeAtEnd != 0 && freeAtEnd < offset {
        OneCopy(m, data, offset, offset - freeAtEnd);
        CopyIn(offset - freeAtEnd, data);
      } else if freeAtEnd != 0 && freeAtEnd < offset + |data| {
        freeAtEnd := freeAtEnd - offset;
        TwoCopies(m, data, offset, freeAtEnd);
        ghost var s1 := ByteStores(writeOffset + offset, data[..freeAtEnd]);
        ReplayConcat(m, s1, ByteStores(0, data[freeAtEnd..]));
        CopyIn(writeOffset + offset, data[..freeAtEnd]);
        CopyIn(0, data[freeAtEnd..]);
      } else {
        OneCopy(m, data, offset, writeOffset + offset);
        CopyIn(writeOffset + offset, data);
      }
    }

    /** Index byte, header if there is one, and payload, each at its offset past the committed end. */
    method WritePieces(index: byte, header: seq<byte>, data: seq<byte>)
      requires Ok() && size <= 0x8000 && filled + |[index] + header + data| <= size
      modifies buf, this`journal
      ensures Ok() && readOffset == old(readOffset) && filled == old(filled)
      ensures Snapshot() == Replay(old(Snapshot()), AppendStores(old(Snapshot()), [index] + header + data, 0))
      ensures journal == old(journal) + AppendStores(old(Snapshot()), [index] + header + data, 0)
    {
      hide Queue, Replay;
      ghost var m := Snapshot();
      WriteAtOffset([index], 0);
      ghost var m1 := Snapshot();
      WriteAtOffset(header, 1);
      ghost var m2 := Snapshot();
      WriteAtOffset(data, 1 + |header|);
      PiecewiseAppend(m, [index], header, data, m1, m2, Snapshot());
    }

    /** The sequence both data writers perform; nothing is visible before the last of its stores. */
    method WriteRecord(index: byte, header: seq<byte>, data: seq<byte>)
      requires Ok() && size <= 0x8000 && filled + |[index] + header + data| <= size
      modifies buf, this`readOffset, this`filled, this`journal
      ensures Ok() && Contents() == old(Contents()) + ([index] + header + data)
      ensures journal == old(journal) + RecordStores(old(Snapshot()), [index] + header + data)
      ensures Snapshot() == Replay(old(Snapshot()), RecordStores(old(Snapshot()), [index] + header + data))
    {
      ghost var m, rec := Snapshot(), [index] + header + data;
      WritePieces(index, header, data);
      ghost var c := CommitWrite(m, |rec|);
      ReplayConcat(m, AppendStores(m, rec, 0), [c]);
      ReplayOne(Snapshot(), c);
      CommittedAppend(m, rec);
      WriteComplete(1 + |header| + |data|);
    }

    /** `rtc_store_data_read_unsafe`: a copy of at most `want` bytes from the head, in one or two parts. */
    method Peek(want: nat) returns (out: seq<byte>)
      requires Ok()
      ensures out == Contents()[..Min(want, |Contents()|)]
    {
      var n := want;
      if filled < n {
        n := filled;
      }
      var dataAtEnd := size - readOffset;
      if dataAtEnd < n {
        out := buf[readOffset..readOffset + dataAtEnd] + buf[..n - dataAtEnd];
      } else {
        out := buf[readOffset..readOffset + n];
      }
      assert forall i :: 0 <= i < n ==> out[i] == At(Snapshot(), i);
    }

    /** `rtc_store_data_release`. */
    method Release(len: nat) returns (ok: bool)
      requires Ok() && size <= 0x8000
      modifies this`readOffset, this`filled, this`wrapCnt, this`journal
      ensures Ok() && ok == (len <= old(|Contents()|))
      ensures Contents() == if ok then old(Contents())[len..] else old(Contents())
      ensures |journal| <= old(|journal|) + 1
    {
      if filled < len {
        return false;
      }
      ReadComplete(len);
      return true;
    }
  }
}
