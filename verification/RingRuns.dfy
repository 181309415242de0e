/**
  Whole runs of one ring against a plain byte queue: writes, writes cut short by a reset,
  releases, discards and initialisations in any order.
 */
module RingRuns {
  import opened Bytes
  import opened RingMemory

  datatype Op =
    | Write(data: seq<byte>)
    | TornWrite(data: seq<byte>, order: seq<nat>)  // soft reset after these byte stores, made in this order
    | Release(len: nat)
    | Discard
    | Boot(cold: bool)

  /** What the code does to the retained memory. */
  function Exec(m: Memory, op: Op): (r: Memory)
    ensures |r.buf| == |m.buf|
  {
    match op
    case Write(data) =>
      if |m.buf| < m.filled + |data| then m
      else Replay(m, RecordStores(m, data))
    case TornWrite(data, order) =>
      if |m.buf| < m.filled + |data| || !Names(order, |data|) then m
      else Recover(Replay(m, Picked(AppendStores(m, data, 0), order)), false)
    case Release(len) => if m.filled < len then m else Apply(m, CommitRead(m, len))
    case Discard => m.(readOffset := 0, filled := 0)
    case Boot(cold) => Recover(m, cold)
  }

  /** What it should mean for a queue of at most `size` bytes. */
  function Fifo(size: nat, q: seq<byte>, op: Op): seq<byte> {
    match op
    case Write(data) => if size < |q| + |data| then q else q + data
    case TornWrite(_, _) => q
    case Release(len) => if |q| < len then q else q[len..]
    case Discard => []
    case Boot(cold) => if cold then [] else q
  }

  function Run(m: Memory, ops: seq<Op>): (r: Memory)
    ensures |r.buf| == |m.buf|
    decreases |ops|
  {
    if ops == [] then m else Run(Exec(m, ops[0]), ops[1..])
  }

  function FifoRun(size: nat, q: seq<byte>, ops: seq<Op>): seq<byte>
    decreases |ops|
  {
    if ops == [] then q else FifoRun(size, Fifo(size, q, ops[0]), ops[1..])
  }

  predicate Agrees(m: Memory, ops: seq<Op>)
    requires Valid(m)
  {
    Valid(Run(m, ops)) && Queue(Run(m, ops)) == FifoRun(|m.buf|, Queue(m), ops)
  }

  lemma StepRefines(m: Memory, op: Op)
    requires Valid(m) && |m.buf| <= 0x8000
    ensures Valid(Exec(m, op)) && Queue(Exec(m, op)) == Fifo(|m.buf|, Queue(m), op)
  {
    match op
    case Write(data) =>
      if m.filled + |data| <= |m.buf| {
        CommittedAppend(m, data);
      }
    case TornWrite(data, order) =>
      if m.filled + |data| <= |m.buf| && Names(order, |data|) {
        TornAppendIsInvisible(m, data, order);
      }
    case Release(len) =>
      if len <= m.filled {
        ReleaseIsAtomic(m, len);
      }
    case Discard =>
    case Boot(cold) =>
      assert !cold ==> Recover(m, cold) == m;
  }

  lemma {:induction false} RunRefines(m: Memory, ops: seq<Op>)
    requires Valid(m) && |m.buf| <= 0x8000
    ensures Agrees(m, ops)
    decreases |ops|
  {
    if ops != [] {
      StepRefines(m, ops[0]);
      RunRefines(Exec(m, ops[0]), ops[1..]);
    }
  }

  // ---- reading and releasing in two sections ----

  /**
    The critical read-and-release returns at most `want` bytes and then releases `want`. With a write between its
    two sections, bytes get lost exactly when fewer than `want` were there and the write makes up for them: then
    what was returned and what is left no longer make up what was queued.
   */
  lemma ReadThenReleaseExactly(size: nat, q: seq<byte>, want: nat, written: seq<byte>)
    requires 0 < |q| && 0 < want
    ensures var returned := q[..Min(want, |q|)];
      var queued := Fifo(size, q, Write(written));
      var left := Fifo(size, queued, Release(want));
      returned + left == queued || left == queued <==> !(|q| < want <= |queued|)
  {
    var returned := q[..Min(want, |q|)];
    var queued := Fifo(size, q, Write(written));
    assert want <= |q| ==> queued[..want] == returned;
    assert want <= |queued| ==> queued[..want] + queued[want..] == queued;
  }

  // ---- the same code on a larger buffer ----

  function Zeros(n: nat): seq<byte> {
    seq(n, _ => 0)
  }

  lemma {:induction false} ZeroStores(m: Memory, stores: seq<StoreOp>)
    requires m.buf == Zeros(|m.buf|)
    requires forall i :: 0 <= i < |stores| ==> stores[i].PutByte? && stores[i].val == 0
    ensures Replay(m, stores) == m
    decreases |stores|
  {
    if stores != [] {
      assert Apply(m, stores[0]).buf == m.buf;
      ZeroStores(m, stores[1..]);
    }
  }

  lemma ZeroWrite(m: Memory, n: nat)
    requires Valid(m) && m.buf == Zeros(|m.buf|) && m.filled + n <= |m.buf|
    ensures Exec(m, Write(Zeros(n))) == m.(filled := m.filled + n)
  {
    var s := AppendStores(m, Zeros(n), 0);
    ReplayConcat(m, s, [CommitWrite(m, n)]);
    ZeroStores(m, s);
    ReplayOne(m, CommitWrite(m, n));
  }

  function OverflowRun(size: nat): seq<Op>
    requires 0x8000 < size < U16
  {
    [Write(Zeros(size)), Release(size), Write(Zeros(U16 - size)), Write([1])]
  }

  /** Past 32768 bytes the 16-bit sum loses a carry: the last byte lands on the oldest queued one. */
  lemma OverflowBreaks(size: nat)
    requires 0x8000 < size < U16
    ensures !Agrees(Empty(size), OverflowRun(size))
  {
    var ops := OverflowRun(size);
    var m0 := Empty(size);
    ZeroWrite(m0, size);
    var m1 := m0.(filled := size);
    var m2 := Exec(m1, Release(size));
    assert m2 == m0.(readOffset := size);
    ZeroWrite(m2, U16 - size);
    var m3 := m2.(filled := U16 - size);
    var s := AppendStores(m3, [1], 0);
    assert s == [PutByte(0, 1)];
    ReplayConcat(m3, s, [CommitWrite(m3, 1)]);
    ReplayOne(m3, s[0]);
    ReplayOne(Apply(m3, s[0]), CommitWrite(m3, 1));
    var m4 := Exec(m3, ops[3]);
    assert Run(m0, ops) == m4 by {
      assert ops[1..][1..][1..][1..] == [] && ops[1..][0] == ops[1] && ops[1..][1..][0] == ops[2];
      assert Run(m3, ops[1..][1..][1..]) == m4;
      assert Run(m2, ops[1..][1..]) == Run(m3, ops[1..][1..][1..]);
      assert Run(m1, ops[1..]) == Run(m2, ops[1..][1..]);
    }
    assert At(m4, U16 - size) == 0 && Queue(m4)[|Queue(m4)| - 1] == 0;
    var q2: seq<byte> := Zeros(size)[size..];
    assert q2 == [];
    var q3 := q2 + Zeros(U16 - size);
    assert FifoRun(size, [], ops) == q3 + [1] by {
      assert [] + Zeros(size) == Zeros(size);
      assert ops[1..][1..][1..][1..] == [] && ops[1..][0] == ops[1] && ops[1..][1..][0] == ops[2];
      assert FifoRun(size, q3, ops[1..][1..][1..]) == q3 + [1];
      assert FifoRun(size, q2, ops[1..][1..]) == FifoRun(size, q3, ops[1..][1..][1..]);
      assert FifoRun(size, Zeros(size), ops[1..]) == FifoRun(size, q2, ops[1..][1..]);
    }
    assert Queue(m0) == [];
  }

  /** The ring is a byte queue in every run from empty if and only if it has at most 32768 bytes. */
  lemma RingIsQueueExactly(size: nat)
    requires 0 < size < U16
    ensures (forall ops :: Agrees(Empty(size), ops)) <==> size <= 0x8000
  {
    if size <= 0x8000 {
      forall ops ensures Agrees(Empty(size), ops) {
        RunRefines(Empty(size), ops);
      }
    } else {
      OverflowBreaks(size);
    }
  }

  predicate SumFits(m: Memory, ops: seq<Op>) {
    var n := Run(m, ops);
    n.readOffset + n.filled < U16
  }

  /**
    The 16-bit sum of the two fields equals the integer sum in every reachable state exactly for
    `2 * size <= 65535`; at 32768 it overflows in one state only, full with `read_offset == size`,
    where nothing more can be written, so that size still behaves as a queue.
   */
  lemma SumFitsExactly(size: nat)
    requires 0 < size < U16
    ensures (forall ops :: SumFits(Empty(size), ops)) <==> 2 * size < U16
  {
    if 2 * size < U16 {
      forall ops ensures SumFits(Empty(size), ops) {
        RunRefines(Empty(size), ops);
      }
    } else {
      var m0 := Empty(size);
      var ops := [Write(Zeros(size)), Release(size), Write(Zeros(size))];
      ZeroWrite(m0, size);
      var m1 := m0.(filled := size);
      var m2 := Exec(m1, Release(size));
      assert m2 == m0.(readOffset := size);
      ZeroWrite(m2, size);
      assert Run(m0, ops) == m2.(filled := size) by {
        assert ops[1..][1..][1..] == [] && ops[1..][0] == ops[1] && ops[1..][1..][0] == ops[2];
        assert Exec(m2, ops[2]) == m2.(filled := size);
        assert Run(m2, ops[1..][1..]) == Exec(m2, ops[2]);
        assert Run(m1, ops[1..]) == Run(m2, ops[1..][1..]);
      }
      assert !SumFits(m0, ops);
    }
  }
}
