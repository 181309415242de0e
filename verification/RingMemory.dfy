/**
  One ring of the record store as a value: the bytes that survive a soft reset, the two
  16-bit fields that say which of them are queued, and the individual stores that change them.
  Everything a reset can observe is decided here, one store at a time.
 */
module RingMemory {
  import opened Bytes

  /** The retained memory of one ring (`data_store_t` and its buffer). */
  datatype Memory = Memory(buf: seq<byte>, readOffset: nat, filled: nat)

  /** One indivisible store to retained memory: a data byte, or the word holding both fields. */
  datatype StoreOp = PutByte(pos: nat, val: byte) | PutInfo(readOffset: nat, filled: nat)

  /** The integrity check: both fields lie in `0..size`, the upper bound included. */
  predicate Valid(m: Memory) {
    0 < |m.buf| < U16 && m.filled <= |m.buf| && m.readOffset <= |m.buf|
  }

  function Wrap(pos: nat, size: nat): nat {
    if pos < size then pos else pos - size
  }

  /** What the ring means: the `filled` bytes that start at `readOffset`, going around once. */
  function Queue(m: Memory): (q: seq<byte>)
    requires Valid(m)
    ensures |q| == m.filled
  {
    seq(m.filled, i requires 0 <= i < m.filled => At(m, i))
  }

  /** Byte `i` counted from the read offset, whether committed yet or not. */
  function At(m: Memory, i: nat): byte
    requires Valid(m) && i < |m.buf|
  {
    m.buf[Wrap(m.readOffset + i, |m.buf|)]
  }

  function Empty(size: nat): Memory {
    Memory(seq(size, _ => 0), 0, 0)
  }

  // ---- single stores and their replay ----

  function Apply(m: Memory, s: StoreOp): (r: Memory)
    ensures |r.buf| == |m.buf|
  {
    match s
    case PutByte(p, v) => if p < |m.buf| then m.(buf := m.buf[p := v]) else m
    case PutInfo(r, f) => m.(readOffset := r, filled := f)
  }

  function Replay(m: Memory, stores: seq<StoreOp>): (r: Memory)
    ensures |r.buf| == |m.buf|
    decreases |stores|
  {
    if stores == [] then m else Replay(Apply(m, stores[0]), stores[1..])
  }

  lemma {:induction false} ReplayConcat(m: Memory, a: seq<StoreOp>, b: seq<StoreOp>)
    ensures Replay(m, a + b) == Replay(Replay(m, a), b)
    decreases |a|
  {
    if a == [] {
      assert a + b == b;
    } else {
      assert (a + b)[1..] == a[1..] + b;
      ReplayConcat(Apply(m, a[0]), a[1..], b);
    }
  }

  lemma ReplayOne(m: Memory, s: StoreOp)
    ensures Replay(m, [s]) == Apply(m, s)
  {
    assert [s][1..] == [];
  }

  // ---- where an append puts its bytes, in the arithmetic of the target ----

  function FreeAtEnd(m: Memory): nat {
    if m.readOffset + m.filled < |m.buf| then |m.buf| - (m.filled + m.readOffset) else 0
  }

  /** `write_offset` is a `uint16_t`: the sum of the two fields is cut to 16 bits before the wrap test. */
  function WriteOffset(m: Memory): nat {
    var w := (m.filled + m.readOffset) % U16;
    if w >= |m.buf| then w - |m.buf| else w
  }

  /** The position that receives byte `k` after the committed end of the queue. */
  function AppendPos(m: Memory, k: nat): nat {
    var atEnd := FreeAtEnd(m);
    if 0 < atEnd <= k then k - atEnd else WriteOffset(m) + k
  }

  function AppendStores(m: Memory, data: seq<byte>, offset: nat): (s: seq<StoreOp>)
    ensures |s| == |data|
  {
    seq(|data|, i requires 0 <= i < |data| => PutByte(AppendPos(m, offset + i), data[i]))
  }

  function CommitWrite(m: Memory, len: nat): StoreOp {
    PutInfo(m.readOffset, (m.filled + len) % U16)
  }

  /** All the stores of one record write, in order. */
  function RecordStores(m: Memory, rec: seq<byte>): seq<StoreOp> {
    AppendStores(m, rec, 0) + [CommitWrite(m, |rec|)]
  }

  /** Both fields move in one store; `read_offset` wraps only when it passes `size`. */
  function CommitRead(m: Memory, len: nat): StoreOp {
    var r := (m.readOffset + len) % U16;
    PutInfo(if r > |m.buf| then r - |m.buf| else r, (m.filled - len) % U16)
  }

  /** Initialisation: a cold boot or a failed integrity check empties the ring, anything else keeps it. */
  function Recover(m: Memory, coldBoot: bool): Memory {
    if coldBoot || m.filled > |m.buf| || m.readOffset > |m.buf| then m.(readOffset := 0, filled := 0) else m
  }

  /** The truncated offset is the intended one exactly when the two fields do not overflow 16 bits. */
  lemma AppendPosExact(m: Memory, k: nat)
    requires Valid(m) && m.filled + k < |m.buf|
    ensures AppendPos(m, k) == Wrap(m.readOffset + m.filled + k, |m.buf|) <==> m.readOffset + m.filled < U16
  {
  }

  /** Index byte, header and payload written separately form one contiguous append. */
  lemma PiecesCompose(m: Memory, a: seq<byte>, b: seq<byte>, c: seq<byte>)
    ensures AppendStores(m, a, 0) + AppendStores(m, b, |a|) + AppendStores(m, c, |a| + |b|)
         == AppendStores(m, a + b + c, 0)
  {
  }

  // ---- crash atomicity of an append ----

  /** `order` names some of `n` stores, in any order and any number of times each. */
  predicate Names(order: seq<nat>, n: nat) {
    forall i :: 0 <= i < |order| ==> order[i] < n
  }

  predicate Occurs(order: seq<nat>, k: nat) {
    exists i :: 0 <= i < |order| && order[i] == k
  }

  function Picked(stores: seq<StoreOp>, order: seq<nat>): (r: seq<StoreOp>)
    requires Names(order, |stores|)
    ensures |r| == |order|
  {
    seq(|order|, i requires 0 <= i < |order| => stores[order[i]])
  }

  /**
    After some of the byte stores of an append, made in any order: both fields and all queued bytes are
    untouched, and the new bytes that were stored follow them.
   */
  lemma {:induction false} AppendPicked(m: Memory, data: seq<byte>, order: seq<nat>)
    requires Valid(m) && m.filled + |data| <= |m.buf| <= 0x8000 && Names(order, |data|)
    ensures var n := Replay(m, Picked(AppendStores(m, data, 0), order));
      && n.readOffset == m.readOffset && n.filled == m.filled
      && (forall i :: 0 <= i < m.filled ==> At(n, i) == At(m, i))
      && (forall i :: 0 <= i < |order| ==> At(n, m.filled + order[i]) == data[order[i]])
    decreases |order|
  {
    hide Queue, Wrap, Replay, AppendPos;
    var s := AppendStores(m, data, 0);
    if order == [] {
      NoStores(m, Picked(s, order));
    } else {
      var rest, k := order[..|order| - 1], order[|order| - 1];
      AppendPicked(m, data, rest);
      var n := Replay(m, Picked(s, rest));
      assert Picked(s, order) == Picked(s, rest) + [s[k]];
      ReplayConcat(m, Picked(s, rest), [s[k]]);
      ReplayOne(n, s[k]);
      AppendPosExact(m, k);
      StoreElsewhere(n, m.filled + k, data[k]);
    }
  }

  lemma NoStores(m: Memory, stores: seq<StoreOp>)
    requires stores == []
    ensures Replay(m, stores) == m
  {
  }

  /** Storing ring byte `j` leaves every other ring byte alone. */
  lemma StoreElsewhere(n: Memory, j: nat, v: byte)
    requires Valid(n) && j < |n.buf|
    ensures var n' := Apply(n, PutByte(Wrap(n.readOffset + j, |n.buf|), v));
      Valid(n') && forall i :: 0 <= i < |n.buf| ==> At(n', i) == if i == j then v else At(n, i)
  {
  }

  /** Whichever of the byte stores of a record write have been made, in whatever order, the queue is what it was. */
  lemma TornAppendIsInvisible(m: Memory, data: seq<byte>, order: seq<nat>)
    requires Valid(m) && m.filled + |data| <= |m.buf| <= 0x8000 && Names(order, |data|)
    ensures var n := Replay(m, Picked(AppendStores(m, data, 0), order));
      Valid(n) && Queue(n) == Queue(m) && n.readOffset == m.readOffset && n.filled == m.filled
  {
    AppendPicked(m, data, order);
    var n := Replay(m, Picked(AppendStores(m, data, 0), order));
    assert forall i :: 0 <= i < m.filled ==> Queue(n)[i] == At(n, i) && Queue(m)[i] == At(m, i);
  }

  /** The order in which the code asks for the first `k` of them. */
  function Ascending(k: nat): seq<nat> {
    seq(k, i => i)
  }

  lemma PickedAscending(stores: seq<StoreOp>, k: nat)
    requires k <= |stores|
    ensures Names(Ascending(k), |stores|) && Picked(stores, Ascending(k)) == stores[..k]
  {
  }

  /** Once all byte stores have been made, in whatever order, the one commit store makes the whole record visible. */
  lemma CommittedInAnyOrder(m: Memory, data: seq<byte>, order: seq<nat>)
    requires Valid(m) && m.filled + |data| <= |m.buf| <= 0x8000 && Names(order, |data|)
    requires forall k :: 0 <= k < |data| ==> Occurs(order, k)
    ensures var n := Replay(m, Picked(AppendStores(m, data, 0), order) + [CommitWrite(m, |data|)]);
      Valid(n) && Queue(n) == Queue(m) + data && n.readOffset == m.readOffset
  {
    hide Queue, At, Replay, AppendStores;
    var s := Picked(AppendStores(m, data, 0), order);
    AppendPicked(m, data, order);
    forall k | 0 <= k < |data| ensures At(Replay(m, s), m.filled + k) == data[k] {
      assert Occurs(order, k);
    }
    ReplayConcat(m, s, [CommitWrite(m, |data|)]);
    CommitShows(m, Replay(m, s), data);
  }

  lemma CommittedAppend(m: Memory, data: seq<byte>)
    requires Valid(m) && m.filled + |data| <= |m.buf| <= 0x8000
    ensures var n := Replay(m, RecordStores(m, data));
      Valid(n) && Queue(n) == Queue(m) + data && n.readOffset == m.readOffset
  {
    hide Queue, Replay;
    var s := AppendStores(m, data, 0);
    PickedAscending(s, |data|);
    assert s[..|data|] == s;
    forall k | 0 <= k < |data| ensures Occurs(Ascending(|data|), k) {
      assert Ascending(|data|)[k] == k;
    }
    CommittedInAnyOrder(m, data, Ascending(|data|));
  }

  lemma CommitShows(m: Memory, full: Memory, data: seq<byte>)
    requires Valid(m) && m.filled + |data| <= |m.buf| <= 0x8000 && |full.buf| == |m.buf|
    requires full.readOffset == m.readOffset && full.filled == m.filled
    requires forall i :: 0 <= i < m.filled ==> At(full, i) == At(m, i)
    requires forall i :: 0 <= i < |data| ==> At(full, m.filled + i) == data[i]
    ensures var n := Replay(full, [CommitWrite(m, |data|)]);
      Valid(n) && Queue(n) == Queue(m) + data && n.readOffset == m.readOffset
  {
    var n := Replay(full, [CommitWrite(m, |data|)]);
    ReplayOne(full, CommitWrite(m, |data|));
    forall i | 0 <= i < n.filled ensures Queue(n)[i] == (Queue(m) + data)[i] {
      assert Queue(n)[i] == At(full, i);
      if i >= m.filled {
        assert At(full, m.filled + (i - m.filled)) == data[i - m.filled];
      }
    }
  }

  /** Up to three pieces written at growing offsets and one commit are one append of the whole record. */
  lemma PiecewiseAppend(m: Memory, a: seq<byte>, b: seq<byte>, c: seq<byte>, m1: Memory, m2: Memory, m3: Memory)
    requires Valid(m) && m.filled + |a + b + c| <= |m.buf| <= 0x8000
    requires m1 == Replay(m, AppendStores(m, a, 0))
    requires m2 == Replay(m1, AppendStores(m1, b, |a|))
    requires m3 == Replay(m2, AppendStores(m2, c, |a| + |b|))
    ensures AppendStores(m, a, 0) + AppendStores(m1, b, |a|) + AppendStores(m2, c, |a| + |b|)
         == AppendStores(m, a + b + c, 0)
    ensures m3 == Replay(m, AppendStores(m, a + b + c, 0))
    ensures m3.readOffset == m.readOffset && m3.filled == m.filled
  {
    var s1, s2, s3 := AppendStores(m, a, 0), AppendStores(m, b, |a|), AppendStores(m, c, |a| + |b|);
    PiecesCompose(m, a, b, c);
    ReplayKeepsInfo(m, s1);
    SamePlaces(m, m1, b, |a|);
    ReplayKeepsInfo(m1, s2);
    SamePlaces(m, m2, c, |a| + |b|);
    ReplayKeepsInfo(m2, s3);
    ReplayConcat(m, s1, s2);
    ReplayConcat(m, s1 + s2, s3);
  }

  lemma SamePlaces(m: Memory, n: Memory, data: seq<byte>, offset: nat)
    requires m.readOffset == n.readOffset && m.filled == n.filled && |m.buf| == |n.buf|
    ensures AppendStores(m, data, offset) == AppendStores(n, data, offset)
  {
    assert forall k: nat :: AppendPos(m, k) == AppendPos(n, k);
  }

  lemma {:induction false} ReplayKeepsInfo(m: Memory, stores: seq<StoreOp>)
    requires forall i :: 0 <= i < |stores| ==> stores[i].PutByte?
    ensures var n := Replay(m, stores); n.readOffset == m.readOffset && n.filled == m.filled
    decreases |stores|
  {
    if stores != [] {
      ReplayKeepsInfo(Apply(m, stores[0]), stores[1..]);
    }
  }

  /** Releasing is one store and removes exactly the first `len` queued bytes. */
  lemma ReleaseIsAtomic(m: Memory, len: nat)
    requires Valid(m) && len <= m.filled && |m.buf| <= 0x8000
    ensures var n := Apply(m, CommitRead(m, len)); Valid(n) && Queue(n) == Queue(m)[len..]
  {
    var n := Apply(m, CommitRead(m, len));
    forall i | 0 <= i < n.filled ensures Queue(n)[i] == Queue(m)[len..][i] {
      assert Queue(m)[len..][i] == At(m, len + i);
      assert Queue(n)[i] == At(n, i);
    }
  }
}
