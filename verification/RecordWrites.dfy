/** The stores of one non-critical write, evictions included, and what a reset between them leaves. */
module RecordWrites {
  import opened Bytes
  import opened RingMemory
  import opened Framing

  /** The commits that release the `k` oldest records, one record each. */
  function DropStores(m: Memory, rs: seq<Record>, k: nat): (s: seq<StoreOp>)
    requires k <= |rs|
    ensures |s| == k
  {
    if k == 0 then [] else
      var s := DropStores(m, rs, k - 1);
      s + [CommitRead(Replay(m, s), |Frame(rs[k - 1])|)]
  }

  function OverwriteStores(m: Memory, rs: seq<Record>, k: nat, rec: Record): seq<StoreOp>
    requires k <= |rs|
  {
    var drops := DropStores(m, rs, k);
    var n := Replay(m, drops);
    drops + RecordStores(n, Frame(rec))
  }

  lemma {:induction false} DropsReleaseWholeRecords(m: Memory, rs: seq<Record>, k: nat)
    requires Valid(m) && |m.buf| <= 0x8000 && k <= |rs|
    requires Queue(m) == Flatten(rs)
    ensures var n := Replay(m, DropStores(m, rs, k)); Valid(n) && Queue(n) == Flatten(rs[k..])
  {
    if k == 0 {
      assert rs[0..] == rs;
    } else {
      DropsReleaseWholeRecords(m, rs, k - 1);
      var s := DropStores(m, rs, k - 1);
      var n := Replay(m, s);
      var c := CommitRead(n, |Frame(rs[k - 1])|);
      assert rs[k - 1..][1..] == rs[k..];
      ReleaseIsAtomic(n, |Frame(rs[k - 1])|);
      ReplayConcat(m, s, [c]);
      ReplayOne(n, c);
    }
  }

  /** The header found at the head of the queue names exactly the bytes of the record evicted next. */
  lemma DropNext(m0: Memory, rs: seq<Record>, k: nat)
    requires Valid(m0) && |m0.buf| <= 0x8000 && k < |rs|
    requires Queue(m0) == Flatten(rs) && AllStorable(rs)
    ensures var m := Replay(m0, DropStores(m0, rs, k));
      var len := |Frame(rs[k])|;
      && Valid(m) && Queue(m) == Flatten(rs[k..]) && len <= m.filled
      && LeValue(Queue(m)[1..1 + HEADER]) == |rs[k].payload|
      && Apply(m, CommitRead(m, len)) == Replay(m0, DropStores(m0, rs, k + 1))
      && DropStores(m0, rs, k + 1) == DropStores(m0, rs, k) + [CommitRead(m, len)]
  {
    var s := DropStores(m0, rs, k);
    DropsReleaseWholeRecords(m0, rs, k);
    HeaderReadsBack(rs[k], Flatten(rs[k..][1..]));
    var c := CommitRead(Replay(m0, s), |Frame(rs[k])|);
    ReplayConcat(m0, s, [c]);
    ReplayOne(Replay(m0, s), c);
  }

  lemma AppendedRecord(rs: seq<Record>, rec: Record)
    requires AllStorable(rs) && Storable(rec)
    ensures var q := Flatten(rs) + Frame(rec); ParseRecords(q) == rs + [rec] && Framed(q)
  {
    FlattenConcat(rs, [rec]);
    assert Flatten([rec]) == Frame(rec) by {
      assert [rec][1..] == [];
    }
    FlattenIsFramed(rs + [rec]);
  }

  lemma {:induction false} DropPrefix(m: Memory, rs: seq<Record>, j: nat, k: nat)
    requires j <= k <= |rs|
    ensures DropStores(m, rs, k)[..j] == DropStores(m, rs, j)
  {
    if j < k {
      DropPrefix(m, rs, j, k - 1);
    }
  }

  lemma ResetDuringEviction(m: Memory, rs: seq<Record>, k: nat, rec: Record, cut: nat)
    requires Valid(m) && |m.buf| <= 0x8000 && cut <= k <= |rs|
    requires Queue(m) == Flatten(rs)
    ensures var n := Replay(m, OverwriteStores(m, rs, k, rec)[..cut]); Valid(n) && Queue(n) == Flatten(rs[cut..])
  {
    DropPrefix(m, rs, cut, k);
    assert OverwriteStores(m, rs, k, rec)[..cut] == DropStores(m, rs, k)[..cut];
    DropsReleaseWholeRecords(m, rs, cut);
  }

  lemma ResetDuringAppend(m: Memory, rs: seq<Record>, k: nat, rec: Record, cut: nat)
    requires Valid(m) && |m.buf| <= 0x8000 && k <= |rs|
    requires Queue(m) == Flatten(rs) && |Flatten(rs[k..])| + |Frame(rec)| <= |m.buf|
    requires k <= cut <= |OverwriteStores(m, rs, k, rec)|
    ensures var all := OverwriteStores(m, rs, k, rec);
      var n := Replay(m, all[..cut]);
      Valid(n) && Queue(n) == Flatten(rs[k..]) + if cut < |all| then [] else Frame(rec)
  {
    var drops := DropStores(m, rs, k);
    var n := Replay(m, drops);
    DropsReleaseWholeRecords(m, rs, k);
    var tail := RecordStores(n, Frame(rec));
    assert (drops + tail)[..cut] == drops + tail[..cut - k];
    ReplayConcat(m, drops, tail[..cut - k]);
    if cut < |drops + tail| {
      var stores := AppendStores(n, Frame(rec), 0);
      assert tail[..cut - k] == stores[..cut - k];
      PickedAscending(stores, cut - k);
      TornAppendIsInvisible(n, Frame(rec), Ascending(cut - k));
    } else {
      assert tail[..cut - k] == tail;
      CommittedAppend(n, Frame(rec));
    }
  }

  /**
    A soft reset after any number of the stores of an overwriting write finds whole records:
    the old ones less those already evicted, and the new one once the last store is made.
   */
  lemma OverwriteIsAtomic(m: Memory, rs: seq<Record>, k: nat, rec: Record, cut: nat)
    requires Valid(m) && |m.buf| <= 0x8000 && k <= |rs|
    requires Queue(m) == Flatten(rs) && |Flatten(rs[k..])| + |Frame(rec)| <= |m.buf|
    requires cut <= |OverwriteStores(m, rs, k, rec)|
    ensures var all := OverwriteStores(m, rs, k, rec);
      var n := Recover(Replay(m, all[..cut]), false);
      Valid(n) && Queue(n) == Flatten(if cut < |all| then rs[Min(cut, k)..] else rs[k..] + [rec])
  {
    if cut <= k {
      ResetDuringEviction(m, rs, k, rec, cut);
    } else {
      ResetDuringAppend(m, rs, k, rec, cut);
      FlattenConcat(rs[k..], [rec]);
      assert Flatten([rec]) == Frame(rec) + Flatten([rec][1..]);
      assert Flatten(rs[k..]) + [] == Flatten(rs[k..]);
    }
  }

  /** Evictions one after another, and when all are made any of the byte stores of the new record, in any order. */
  function TornStores(m: Memory, rs: seq<Record>, k: nat, rec: Record, evicted: nat, order: seq<nat>): seq<StoreOp>
    requires evicted <= k <= |rs| && Names(order, |Frame(rec)|)
  {
    var drops := DropStores(m, rs, evicted);
    drops + if evicted < k then [] else Picked(AppendStores(Replay(m, drops), Frame(rec), 0), order)
  }

  /** The same for copies that store their bytes in any order: before the commit only evictions show. */
  lemma TornOverwriteIsAtomic(m: Memory, rs: seq<Record>, k: nat, rec: Record, evicted: nat, order: seq<nat>)
    requires Valid(m) && |m.buf| <= 0x8000 && evicted <= k <= |rs| && Names(order, |Frame(rec)|)
    requires Queue(m) == Flatten(rs) && |Flatten(rs[k..])| + |Frame(rec)| <= |m.buf|
    ensures var n := Recover(Replay(m, TornStores(m, rs, k, rec, evicted, order)), false);
      Valid(n) && Queue(n) == Flatten(rs[evicted..])
  {
    hide Replay, DropStores, Queue, Flatten;
    var drops := DropStores(m, rs, evicted);
    var n := Replay(m, drops);
    DropsReleaseWholeRecords(m, rs, evicted);
    if evicted < k {
      assert drops + [] == drops;
    } else {
      ReplayConcat(m, drops, Picked(AppendStores(n, Frame(rec), 0), order));
      TornAppendIsInvisible(n, Frame(rec), order);
    }
  }
}
