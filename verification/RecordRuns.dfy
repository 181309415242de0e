/**
  Whole runs of the non-critical ring against a plain list of records. Sending reads a window in one section and
  releases what was consumed of it in another; writes that evict, and discards, may come between the two.
 */
module RecordRuns {
  import opened Bytes
  import opened RingMemory
  import opened Framing
  import opened Consumption
  import opened RecordWrites

  datatype Op =
    | Put(rec: Record)
    | TornPut(rec: Record, evicted: nat, order: seq<nat>)  // soft reset after these evictions and byte stores
    | Read(window: nat)
    | Release
    | Discard
    | Boot(cold: bool)

  /** What the task that sends holds between its two sections; `start` is history. */
  datatype Pending = Pending(consumed: nat, start: nat)

  /**
    One ring over its life. `written` and `gone` are history: all bytes accepted since the first boot, and how
    many of them have left, so that every byte has a number.
   */
  datatype Ring = Ring(mem: Memory, pending: Option<Pending>, written: seq<byte>, gone: nat)

  /** Refused writes: no data, longer than the ring, or no room and no overwriting. */
  predicate Refused(size: nat, used: nat, overwrite: bool, rec: Record)
    requires used <= size
  {
    rec.payload == [] || |Frame(rec)| > size || (!overwrite && size - used < |Frame(rec)|)
  }

  function ToEvict(rs: seq<Record>, free: nat, overwrite: bool, rec: Record): (k: nat)
    ensures k <= |rs|
  {
    if overwrite then Evicted(rs, free, |Frame(rec)|) else 0
  }

  /** Bytes of the whole records of the first one's boot in a window of the queue `q`. */
  function ConsumedPoints(q: seq<byte>, window: nat): nat {
    if q == [] then 0 else
      var rs := ParseRecords(q);
      Total(rs[..Run(rs, HEADER, q[0], Min(window, |q|))], HEADER)
  }

  function StorePut(s: Ring, overwrite: bool, rec: Record): Ring
    requires Valid(s.mem) && !Refused(|s.mem.buf|, s.mem.filled, overwrite, rec)
  {
    var m, rs := s.mem, ParseRecords(Queue(s.mem));
    var k := ToEvict(rs, |m.buf| - m.filled, overwrite, rec);
    Ring(Replay(m, OverwriteStores(m, rs, k, rec)), s.pending, s.written + Frame(rec), s.gone + |Flatten(rs[..k])|)
  }

  function StoreTorn(s: Ring, overwrite: bool, rec: Record, evicted: nat, order: seq<nat>): Ring
    requires Valid(s.mem) && !Refused(|s.mem.buf|, s.mem.filled, overwrite, rec) && Names(order, |Frame(rec)|)
  {
    var m, rs := s.mem, ParseRecords(Queue(s.mem));
    var k := ToEvict(rs, |m.buf| - m.filled, overwrite, rec);
    var e := Min(evicted, k);
    Ring(Recover(Replay(m, TornStores(m, rs, k, rec, e, order)), false), None, s.written, s.gone + |Flatten(rs[..e])|)
  }

  function StoreRelease(s: Ring): Ring
    requires Valid(s.mem) && s.pending.Some?
  {
    var n := s.pending.value.consumed;
    if s.mem.filled < n then s.(pending := None)
    else s.(mem := Apply(s.mem, CommitRead(s.mem, n)), pending := None, gone := s.gone + n)
  }

  /** What the code does to a ring of whole records. */
  function Exec(s: Ring, overwrite: bool, op: Op): Ring
    requires Valid(s.mem)
  {
    match op
    case Put(rec) =>
      if Refused(|s.mem.buf|, s.mem.filled, overwrite, rec) then s else StorePut(s, overwrite, rec)
    case TornPut(rec, evicted, order) =>
      if Refused(|s.mem.buf|, s.mem.filled, overwrite, rec) || !Names(order, |Frame(rec)|) then s.(pending := None)
      else StoreTorn(s, overwrite, rec, evicted, order)
    case Read(window) =>
      if s.pending.Some? || Queue(s.mem) == [] then s
      else s.(pending := Some(Pending(ConsumedPoints(Queue(s.mem), window), s.gone)))
    case Release => if s.pending.None? then s else StoreRelease(s)
    case Discard => s.(mem := s.mem.(readOffset := 0, filled := 0), gone := |s.written|)
    case Boot(cold) =>
      s.(mem := Recover(s.mem, cold), pending := None, gone := if cold then |s.written| else s.gone)
  }

  // ---- the same on a list of records ----

  /** The records at the head that were encoded; `moved` says that any record has left since. */
  datatype Taken = Taken(count: nat, bytes: nat, moved: bool)

  datatype Records = Records(rs: seq<Record>, taken: Option<Taken>)

  function Moved(t: Option<Taken>): Option<Taken> {
    if t.None? then None else Some(t.value.(moved := true))
  }

  function OnRecords(size: nat, overwrite: bool, r: Records, op: Op): Records
    requires |Flatten(r.rs)| <= size
  {
    var free := size - |Flatten(r.rs)|;
    match op
    case Put(rec) =>
      if Refused(size, |Flatten(r.rs)|, overwrite, rec) then r else
        var k := ToEvict(r.rs, free, overwrite, rec);
        Records(r.rs[k..] + [rec], if k > 0 then Moved(r.taken) else r.taken)
    case TornPut(rec, evicted, order) =>
      if Refused(size, |Flatten(r.rs)|, overwrite, rec) || !Names(order, |Frame(rec)|) then r.(taken := None)
      else Records(r.rs[Min(evicted, ToEvict(r.rs, free, overwrite, rec))..], None)
    case Read(window) =>
      if r.taken.Some? || r.rs == [] then r else
        var k := Run(r.rs, HEADER, r.rs[0].meta, Min(window, |Flatten(r.rs)|));
        r.(taken := Some(Taken(k, Total(r.rs[..k], HEADER), false)))
    case Release =>
      if r.taken.None? then r
      else Records(if r.taken.value.moved then r.rs else r.rs[Min(r.taken.value.count, |r.rs|)..], None)
    case Discard => Records([], if r.rs == [] then r.taken else Moved(r.taken))
    case Boot(cold) => Records(if cold then [] else r.rs, None)
  }

  /** The step takes records out of the list, other than by a release. */
  predicate Removes(size: nat, overwrite: bool, r: Records, op: Op)
    requires |Flatten(r.rs)| <= size
  {
    match op
    case Put(rec) =>
      && !Refused(size, |Flatten(r.rs)|, overwrite, rec)
      && ToEvict(r.rs, size - |Flatten(r.rs)|, overwrite, rec) > 0
    case Discard => r.rs != []
    case _ => false
  }

  /** A release is clean when no record has left since the read, nothing was consumed, or the store refuses. */
  predicate Clean(r: Records, op: Op) {
    op.Release? && r.taken.Some? ==>
      var t := r.taken.value;
      !t.moved || t.bytes == 0 || t.bytes > |Flatten(r.rs)|
  }

  // ---- one step ----

  /** The ring holds exactly these records and nothing between or after them. */
  ghost predicate Holds(m: Memory, rs: seq<Record>) {
    Valid(m) && AllStorable(rs) && Queue(m) == Flatten(rs)
  }

  ghost predicate HistoryOk(s: Ring, rs: seq<Record>) {
    s.gone <= |s.written| && Flatten(rs) == s.written[s.gone..]
  }

  ghost predicate PendingOk(s: Ring, r: Records) {
    && (s.pending.Some? <==> r.taken.Some?)
    && (r.taken.Some? ==>
          var p, t := s.pending.value, r.taken.value;
          && p.consumed == t.bytes && p.start + p.consumed <= |s.written|
          && (if t.moved then p.start < s.gone
              else p.start == s.gone && t.count <= |r.rs| && t.bytes == |Flatten(r.rs[..t.count])|))
  }

  ghost predicate Agree(s: Ring, r: Records) {
    Holds(s.mem, r.rs) && HistoryOk(s, r.rs) && PendingOk(s, r)
  }

  lemma HoldsParsed(m: Memory, rs: seq<Record>)
    requires Holds(m, rs)
    ensures ParseRecords(Queue(m)) == rs && Framed(Queue(m)) && m.filled == |Flatten(rs)|
  {
    hide Flatten, ParseRecords, Queue;
    FlattenIsFramed(rs);
  }

  lemma RoomAfterEviction(rs: seq<Record>, size: nat, overwrite: bool, rec: Record)
    requires |Flatten(rs)| <= size && !Refused(size, |Flatten(rs)|, overwrite, rec)
    ensures |Flatten(rs[ToEvict(rs, size - |Flatten(rs)|, overwrite, rec)..])| + |Frame(rec)| <= size
  {
    hide Flatten, Evicted;
    var k := ToEvict(rs, size - |Flatten(rs)|, overwrite, rec);
    assert rs[..k] + rs[k..] == rs && rs[0..] == rs;
    FlattenConcat(rs[..k], rs[k..]);
    EvictionIsMinimal(rs, size - |Flatten(rs)|, |Frame(rec)|);
  }

  /** Dropping records from the front moves the history on by their bytes. */
  lemma HistoryDrops(s: Ring, rs: seq<Record>, k: nat)
    requires HistoryOk(s, rs) && k <= |rs|
    ensures var g := s.gone + |Flatten(rs[..k])|; g <= |s.written| && Flatten(rs[k..]) == s.written[g..]
    ensures k > 0 ==> Flatten(rs[..k]) != []
  {
    assert rs[..k] + rs[k..] == rs;
    FlattenConcat(rs[..k], rs[k..]);
    if k > 0 {
      FlattenTake(rs, k - 1);
    }
  }

  lemma HistoryGrows(s: Ring, rs: seq<Record>, k: nat, rec: Record)
    requires HistoryOk(s, rs) && k <= |rs|
    ensures var g := s.gone + |Flatten(rs[..k])|;
      g <= |s.written| && Flatten(rs[k..] + [rec]) == (s.written + Frame(rec))[g..]
  {
    hide Flatten;
    HistoryDrops(s, rs, k);
    FlattenConcat(rs[k..], [rec]);
    OneRecord(rec);
  }

  lemma OneRecord(r: Record)
    ensures Flatten([r]) == Frame(r) && |Flatten([r])| == Size(r, HEADER)
  {
    assert Flatten([r]) == Frame(r) + Flatten([r][1..]);
  }

  lemma PutHolds(m: Memory, rs: seq<Record>, overwrite: bool, rec: Record)
    requires Holds(m, rs) && |m.buf| <= 0x8000 && !Refused(|m.buf|, m.filled, overwrite, rec)
    ensures var k := ToEvict(rs, |m.buf| - m.filled, overwrite, rec);
      Holds(Replay(m, OverwriteStores(m, rs, k, rec)), rs[k..] + [rec])
  {
    hide Flatten, ParseRecords, Queue, Replay, Evicted, DropStores, Frame;
    HoldsParsed(m, rs);
    RoomAfterEviction(rs, |m.buf|, overwrite, rec);
    var k := ToEvict(rs, |m.buf| - m.filled, overwrite, rec);
    var all := OverwriteStores(m, rs, k, rec);
    OverwriteIsAtomic(m, rs, k, rec, |all|);
    assert all[..|all|] == all;
    WholePut(Replay(m, all), rs[k..], rec);
  }

  /** The integrity check after a complete write finds nothing to repair. */
  lemma WholePut(n: Memory, rs: seq<Record>, rec: Record)
    requires 0 < |n.buf| < U16 && Valid(Recover(n, false)) && Queue(Recover(n, false)) == Flatten(rs + [rec])
    ensures Recover(n, false) == n
  {
    hide Queue;
    FlattenConcat(rs, [rec]);
    OneRecord(rec);
    assert |Queue(Recover(n, false))| > 0;
  }

  lemma PutAgrees(s: Ring, r: Records, overwrite: bool, rec: Record)
    requires Agree(s, r) && |s.mem.buf| <= 0x8000 && !Refused(|s.mem.buf|, s.mem.filled, overwrite, rec)
    ensures Agree(StorePut(s, overwrite, rec), OnRecords(|s.mem.buf|, overwrite, r, Put(rec)))
  {
    hide Flatten, ParseRecords, Queue, Replay, Evicted, OverwriteStores, Frame;
    HoldsParsed(s.mem, r.rs);
    PutHolds(s.mem, r.rs, overwrite, rec);
    var k := ToEvict(r.rs, |s.mem.buf| - s.mem.filled, overwrite, rec);
    HistoryGrows(s, r.rs, k, rec);
    HistoryDrops(s, r.rs, k);
    if k == 0 && r.taken.Some? && !r.taken.value.moved {
      NothingBefore(r.rs, rec, r.taken.value.count);
    }
  }

  lemma NothingBefore(rs: seq<Record>, rec: Record, n: nat)
    requires n <= |rs|
    ensures Flatten(rs[..0]) == [] && (rs[0..] + [rec])[..n] == rs[..n]
  {
  }

  lemma TornAgrees(s: Ring, r: Records, overwrite: bool, rec: Record, evicted: nat, order: seq<nat>)
    requires Agree(s, r) && |s.mem.buf| <= 0x8000 && !Refused(|s.mem.buf|, s.mem.filled, overwrite, rec)
    requires Names(order, |Frame(rec)|)
    ensures Agree(StoreTorn(s, overwrite, rec, evicted, order),
                  OnRecords(|s.mem.buf|, overwrite, r, TornPut(rec, evicted, order)))
  {
    hide Flatten, ParseRecords, Queue, Replay, Evicted, TornStores, Names;
    HoldsParsed(s.mem, r.rs);
    RoomAfterEviction(r.rs, |s.mem.buf|, overwrite, rec);
    var k := ToEvict(r.rs, |s.mem.buf| - s.mem.filled, overwrite, rec);
    HistoryDrops(s, r.rs, Min(evicted, k));
    TornOverwriteIsAtomic(s.mem, r.rs, k, rec, Min(evicted, k), order);
  }

  lemma ReadAgrees(s: Ring, r: Records, overwrite: bool, window: nat)
    requires Agree(s, r) && |s.mem.buf| <= 0x8000
    ensures Agree(Exec(s, overwrite, Read(window)), OnRecords(|s.mem.buf|, overwrite, r, Read(window)))
  {
    hide ParseRecords, Queue, Run, Total, Flatten;
    HoldsParsed(s.mem, r.rs);
    if r.rs == [] {
      NoRecords(s.mem);
    } else {
      HeadIsMeta(r.rs);
      var k := Run(r.rs, HEADER, r.rs[0].meta, Min(window, |Flatten(r.rs)|));
      FlattenLength(r.rs[..k]);
      HistoryDrops(s, r.rs, k);
    }
  }

  lemma HeadIsMeta(rs: seq<Record>)
    requires rs != []
    ensures Flatten(rs) != [] && Flatten(rs)[0] == rs[0].meta
  {
  }

  lemma ReleaseAgrees(s: Ring, r: Records, overwrite: bool)
    requires Agree(s, r) && |s.mem.buf| <= 0x8000 && Clean(r, Release)
    ensures Agree(Exec(s, overwrite, Release), OnRecords(|s.mem.buf|, overwrite, r, Release))
  {
    hide ParseRecords, Queue, Flatten, CommitRead, Apply;
    HoldsParsed(s.mem, r.rs);
    if s.pending.Some? && s.pending.value.consumed <= s.mem.filled {
      ReleaseIsAtomic(s.mem, s.pending.value.consumed);
      var k := if r.taken.value.moved then 0 else r.taken.value.count;
      NothingBefore(r.rs, Record(0, []), 0);
      assert r.rs[0..] == r.rs && r.rs[..k] + r.rs[k..] == r.rs;
      FlattenConcat(r.rs[..k], r.rs[k..]);
      HistoryDrops(s, r.rs, k);
    }
  }

  lemma NoRecords(m: Memory)
    requires 0 < |m.buf| < U16
    ensures Flatten([]) == [] && Holds(m.(readOffset := 0, filled := 0), [])
  {
  }

  lemma EmptyAgrees(s: Ring, r: Records, overwrite: bool)
    requires Agree(s, r) && |s.mem.buf| <= 0x8000
    ensures Agree(Exec(s, overwrite, Discard), OnRecords(|s.mem.buf|, overwrite, r, Discard))
    ensures forall cold ::
      Agree(Exec(s, overwrite, Boot(cold)), OnRecords(|s.mem.buf|, overwrite, r, Boot(cold)))
  {
    hide ParseRecords, Queue;
    HoldsParsed(s.mem, r.rs);
    NoRecords(s.mem);
    HistoryDrops(s, r.rs, |r.rs|);
    assert r.rs[..|r.rs|] == r.rs;
  }

  lemma StepRefines(s: Ring, r: Records, overwrite: bool, op: Op)
    requires Agree(s, r) && |s.mem.buf| <= 0x8000 && Clean(r, op)
    ensures |Flatten(r.rs)| <= |s.mem.buf| && |Exec(s, overwrite, op).mem.buf| == |s.mem.buf|
    ensures Agree(Exec(s, overwrite, op), OnRecords(|s.mem.buf|, overwrite, r, op))
  {
    hide Flatten, ParseRecords, Queue, Replay, StorePut, StoreTorn, Frame, OverwriteStores, TornStores, Evicted;
    HoldsParsed(s.mem, r.rs);
    SameSize(s, overwrite, op);
    match op
    case Put(rec) =>
      if !Refused(|s.mem.buf|, s.mem.filled, overwrite, rec) {
        PutAgrees(s, r, overwrite, rec);
      }
    case TornPut(rec, evicted, order) =>
      if !Refused(|s.mem.buf|, s.mem.filled, overwrite, rec) && Names(order, |Frame(rec)|) {
        TornAgrees(s, r, overwrite, rec, evicted, order);
      }
    case Read(window) => ReadAgrees(s, r, overwrite, window);
    case Release => ReleaseAgrees(s, r, overwrite);
    case Discard => EmptyAgrees(s, r, overwrite);
    case Boot(cold) => EmptyAgrees(s, r, overwrite);
  }

  lemma SameSize(s: Ring, overwrite: bool, op: Op)
    requires Valid(s.mem)
    ensures |Exec(s, overwrite, op).mem.buf| == |s.mem.buf|
  {
    hide Queue, ParseRecords, Refused, OverwriteStores, TornStores;
  }

  // ---- runs ----

  function Start(size: nat): Ring {
    Ring(Empty(size), None, [], 0)
  }

  function RunRing(s: Ring, overwrite: bool, ops: seq<Op>): Ring
    decreases |ops|
  {
    if ops == [] || !Valid(s.mem) then s else RunRing(Exec(s, overwrite, ops[0]), overwrite, ops[1..])
  }

  function RunRecords(size: nat, overwrite: bool, r: Records, ops: seq<Op>): Records
    decreases |ops|
  {
    if ops == [] || size < |Flatten(r.rs)| then r
    else RunRecords(size, overwrite, OnRecords(size, overwrite, r, ops[0]), ops[1..])
  }

  predicate CleanRun(size: nat, overwrite: bool, r: Records, ops: seq<Op>)
    decreases |ops|
  {
    ops == [] || size < |Flatten(r.rs)|
    || (Clean(r, ops[0]) && CleanRun(size, overwrite, OnRecords(size, overwrite, r, ops[0]), ops[1..]))
  }

  lemma {:induction false} RunRefines(s: Ring, r: Records, overwrite: bool, ops: seq<Op>)
    requires Agree(s, r) && |s.mem.buf| <= 0x8000 && CleanRun(|s.mem.buf|, overwrite, r, ops)
    ensures Agree(RunRing(s, overwrite, ops), RunRecords(|s.mem.buf|, overwrite, r, ops))
    ensures |RunRing(s, overwrite, ops).mem.buf| == |s.mem.buf|
    decreases |ops|
  {
    hide Agree, Exec, OnRecords, Flatten, Clean;
    AgreeIsValid(s, r);
    if ops != [] {
      StepRefines(s, r, overwrite, ops[0]);
      RunRefines(Exec(s, overwrite, ops[0]), OnRecords(|s.mem.buf|, overwrite, r, ops[0]), overwrite, ops[1..]);
    }
  }

  lemma AgreeIsValid(s: Ring, r: Records)
    requires Agree(s, r)
    ensures Valid(s.mem) && |Flatten(r.rs)| <= |s.mem.buf|
  {
  }

  lemma StartAgrees(size: nat)
    requires 0 < size < U16
    ensures Agree(Start(size), Records([], None)) && |Start(size).mem.buf| == size
  {
    NoRecords(Empty(size));
  }

  /**
    In every run from an empty ring whose releases are clean, resets in the middle of writes included, the ring
    holds whole records and nothing else, and they are the records a plain list would hold.
   */
  lemma RingIsRecordList(size: nat, overwrite: bool, ops: seq<Op>)
    requires 0 < size <= 0x8000 && CleanRun(size, overwrite, Records([], None), ops)
    ensures var n := RunRing(Start(size), overwrite, ops).mem;
      && Valid(n) && Framed(Queue(n))
      && ParseRecords(Queue(n)) == RunRecords(size, overwrite, Records([], None), ops).rs
  {
    StartAgrees(size);
    RunRefines(Start(size), Records([], None), overwrite, ops);
    HoldsParsed(RunRing(Start(size), overwrite, ops).mem, RunRecords(size, overwrite, Records([], None), ops).rs);
  }

  /** While a window is read but not released, nothing else takes records out. */
  predicate Undisturbed(size: nat, overwrite: bool, r: Records, ops: seq<Op>)
    decreases |ops|
  {
    ops == [] || size < |Flatten(r.rs)|
    || ((r.taken.Some? ==> !Removes(size, overwrite, r, ops[0]))
        && Undisturbed(size, overwrite, OnRecords(size, overwrite, r, ops[0]), ops[1..]))
  }

  predicate NotMoved(r: Records) {
    r.taken.Some? ==> !r.taken.value.moved
  }

  lemma {:induction false} UndisturbedIsClean(size: nat, overwrite: bool, r: Records, ops: seq<Op>)
    requires NotMoved(r) && Undisturbed(size, overwrite, r, ops)
    ensures CleanRun(size, overwrite, r, ops)
    decreases |ops|
  {
    hide Refused, ToEvict, Run, Total, Flatten;
    if ops != [] && |Flatten(r.rs)| <= size {
      UndisturbedIsClean(size, overwrite, OnRecords(size, overwrite, r, ops[0]), ops[1..]);
    }
  }

  /** Discards do not fall between a read and its release. */
  predicate NoDiscardBetween(size: nat, overwrite: bool, r: Records, ops: seq<Op>)
    decreases |ops|
  {
    ops == [] || size < |Flatten(r.rs)|
    || ((r.taken.Some? ==> !ops[0].Discard?)
        && NoDiscardBetween(size, overwrite, OnRecords(size, overwrite, r, ops[0]), ops[1..]))
  }

  lemma {:induction false} OnlyDiscardsDisturb(size: nat, r: Records, ops: seq<Op>)
    requires NoDiscardBetween(size, false, r, ops)
    ensures Undisturbed(size, false, r, ops)
    decreases |ops|
  {
    hide OnRecords, Flatten;
    if ops != [] && |Flatten(r.rs)| <= size {
      OnlyDiscardsDisturb(size, OnRecords(size, false, r, ops[0]), ops[1..]);
    }
  }

  /** Without overwriting, every run whose discards keep clear of sends leaves whole records. */
  lemma WholeRecordsWithoutOverwriting(size: nat, ops: seq<Op>)
    requires 0 < size <= 0x8000 && NoDiscardBetween(size, false, Records([], None), ops)
    ensures var n := RunRing(Start(size), false, ops).mem;
      && Valid(n) && Framed(Queue(n))
      && ParseRecords(Queue(n)) == RunRecords(size, false, Records([], None), ops).rs
  {
    OnlyDiscardsDisturb(size, Records([], None), ops);
    UndisturbedIsClean(size, false, Records([], None), ops);
    RingIsRecordList(size, false, ops);
  }

  // ---- exactly which releases are right ----

  predicate PutsAndDiscards(ops: seq<Op>) {
    forall i :: 0 <= i < |ops| ==> ops[i].Put? || ops[i].Discard?
  }

  predicate NothingRemoved(size: nat, overwrite: bool, r: Records, ops: seq<Op>)
    decreases |ops|
  {
    ops == [] || size < |Flatten(r.rs)|
    || (!Removes(size, overwrite, r, ops[0])
        && NothingRemoved(size, overwrite, OnRecords(size, overwrite, r, ops[0]), ops[1..]))
  }

  /** Until the release, what was read stays noted, and `moved` records whether anything left. */
  lemma {:induction false} TakenStays(s: Ring, r: Records, overwrite: bool, ops: seq<Op>)
    requires Agree(s, r) && |s.mem.buf| <= 0x8000 && r.taken.Some? && PutsAndDiscards(ops)
    ensures CleanRun(|s.mem.buf|, overwrite, r, ops) && RunRing(s, overwrite, ops).pending == s.pending
    ensures var n := RunRecords(|s.mem.buf|, overwrite, r, ops);
      && n.taken.Some? && n.taken.value.bytes == r.taken.value.bytes
      && (n.taken.value.moved <==> r.taken.value.moved || !NothingRemoved(|s.mem.buf|, overwrite, r, ops))
    decreases |ops|
  {
    hide Agree, Flatten;
    AgreeIsValid(s, r);
    if ops != [] {
      StepRefines(s, r, overwrite, ops[0]);
      TakenStaysOneStep(s, r, overwrite, ops[0]);
      TakenStays(Exec(s, overwrite, ops[0]), OnRecords(|s.mem.buf|, overwrite, r, ops[0]), overwrite, ops[1..]);
    }
  }

  lemma TakenStaysOneStep(s: Ring, r: Records, overwrite: bool, op: Op)
    requires Valid(s.mem) && |Flatten(r.rs)| <= |s.mem.buf| && r.taken.Some? && (op.Put? || op.Discard?)
    ensures Exec(s, overwrite, op).pending == s.pending
    ensures var n := OnRecords(|s.mem.buf|, overwrite, r, op);
      && n.taken.Some? && n.taken.value.bytes == r.taken.value.bytes
      && (n.taken.value.moved <==> r.taken.value.moved || Removes(|s.mem.buf|, overwrite, r, op))
  {
    hide Refused, ToEvict, Flatten, Queue, ParseRecords, Replay, OverwriteStores;
  }

  /** Byte number `x` was in a record that was encoded. */
  predicate Encoded(p: Pending, x: nat) {
    p.start <= x < p.start + p.consumed
  }

  /** One release: the bytes it removes are bytes of its window exactly when it is clean. */
  lemma ReleaseIsExactWhen(s: Ring, r: Records)
    requires Agree(s, r) && |s.mem.buf| <= 0x8000 && s.pending.Some?
    ensures var p := s.pending.value;
      (forall x :: s.gone <= x < StoreRelease(s).gone ==> Encoded(p, x)) <==> Clean(r, Release)
  {
    HoldsParsed(s.mem, r.rs);
    hide Flatten, Queue, ParseRecords;
    var p := s.pending.value;
    if r.taken.value.moved && 0 < p.consumed <= s.mem.filled {
      assert !Encoded(p, s.gone + p.consumed - 1);
    }
  }

  /**
    After any clean run a window is read, and writes and discards follow before its release. The release removes
    only bytes that were encoded exactly when none of them evicted or discarded a record, or nothing was consumed,
    or the store refuses. If none did, it removes all of them.
   */
  lemma ReleaseExactOverRun(size: nat, overwrite: bool, first: seq<Op>, window: nat, between: seq<Op>)
    requires 0 < size <= 0x8000 && CleanRun(size, overwrite, Records([], None), first) && PutsAndDiscards(between)
    requires var r := RunRecords(size, overwrite, Records([], None), first);
      r.rs != [] && r.taken.None? && |Flatten(r.rs)| <= size && Valid(RunRing(Start(size), overwrite, first).mem)
    ensures var r := OnRecords(size, overwrite, RunRecords(size, overwrite, Records([], None), first), Read(window));
      var s := RunRing(Start(size), overwrite, first);
      var n := RunRing(Exec(s, overwrite, Read(window)), overwrite, between);
      && Valid(n.mem) && n.pending.Some? && n.pending.value.start == s.gone
      && n.pending.value.consumed == ConsumedPoints(Queue(s.mem), window)
      && var p, quiet := n.pending.value, NothingRemoved(size, overwrite, r, between);
         && ((forall x :: n.gone <= x < StoreRelease(n).gone ==> Encoded(p, x))
             <==> (quiet || p.consumed == 0 || p.consumed > n.mem.filled))
         && (quiet ==> n.gone == p.start && StoreRelease(n).gone == p.start + p.consumed)
  {
    hide Flatten, Exec, OnRecords, RunRing, RunRecords, CleanRun, Agree, StoreRelease, Queue, ConsumedPoints;
    StartAgrees(size);
    RunRefines(Start(size), Records([], None), overwrite, first);
    var s, r := RunRing(Start(size), overwrite, first), RunRecords(size, overwrite, Records([], None), first);
    ReadIsNoted(s, r, overwrite, window);
    StepRefines(s, r, overwrite, Read(window));
    var s1, r1 := Exec(s, overwrite, Read(window)), OnRecords(size, overwrite, r, Read(window));
    TakenStays(s1, r1, overwrite, between);
    RunRefines(s1, r1, overwrite, between);
    var n, rn := RunRing(s1, overwrite, between), RunRecords(size, overwrite, r1, between);
    AgreeIsValid(n, rn);
    ReleaseIsExactWhen(n, rn);
    QuietRelease(n, rn);
  }

  lemma ReadIsNoted(s: Ring, r: Records, overwrite: bool, window: nat)
    requires Agree(s, r) && |s.mem.buf| <= 0x8000 && r.rs != [] && r.taken.None?
    ensures |Flatten(r.rs)| <= |s.mem.buf|
    ensures var n := Exec(s, overwrite, Read(window));
      n.pending == Some(Pending(ConsumedPoints(Queue(s.mem), window), s.gone))
    ensures var t := OnRecords(|s.mem.buf|, overwrite, r, Read(window)).taken; t.Some? && !t.value.moved
  {
    hide ConsumedPoints, Run, Total;
    HoldsParsed(s.mem, r.rs);
    HeadIsMeta(r.rs);
  }

  lemma QuietRelease(n: Ring, r: Records)
    requires Agree(n, r) && n.pending.Some?
    ensures r.taken.Some? && n.pending.value.consumed == r.taken.value.bytes && n.mem.filled == |Flatten(r.rs)|
    ensures !r.taken.value.moved ==>
      n.gone == n.pending.value.start && StoreRelease(n).gone == n.gone + n.pending.value.consumed
  {
    HoldsParsed(n.mem, r.rs);
    if !r.taken.value.moved {
      HistoryDrops(n, r.rs, r.taken.value.count);
      hide Flatten;
    }
  }

  // ---- draining ----

  function Sends(window: nat, n: nat): seq<Op> {
    if n == 0 then [] else [Read(window), Release] + Sends(window, n - 1)
  }

  predicate FitsWindow(r: Record, window: nat) {
    Size(r, HEADER) <= window
  }

  /** One send takes the first record if it fits the window, and never gets past one that does not. */
  lemma OneSend(rs: seq<Record>, window: nat)
    requires rs != []
    ensures var k := Run(rs, HEADER, rs[0].meta, Min(window, |Flatten(rs)|));
      && |Flatten(rs[k..])| <= |Flatten(rs)| && (FitsWindow(rs[0], window) ==> k > 0)
      && forall i :: 0 <= i < |rs| && !FitsWindow(rs[i], window) ==> k <= i
  {
    hide Run, Total, Flatten;
    var n := Min(window, |Flatten(rs)|);
    var k := Run(rs, HEADER, rs[0].meta, n);
    assert rs[..k] + rs[k..] == rs && [rs[0]] + rs[1..] == rs;
    FlattenConcat(rs[..k], rs[k..]);
    FlattenConcat([rs[0]], rs[1..]);
    OneRecord(rs[0]);
    if FitsWindow(rs[0], window) {
      RunMakesProgress(rs, HEADER, n);
    }
    RunIsLongest(rs, HEADER, rs[0].meta, n);
    forall i | 0 <= i < |rs| && !FitsWindow(rs[i], window) ensures k <= i {
      if i < k {
        SizeInTotal(rs[..k], i);
      }
    }
  }

  lemma {:induction false} SizeInTotal(rs: seq<Record>, i: nat)
    requires i < |rs|
    ensures Size(rs[i], HEADER) <= Total(rs, HEADER)
    decreases i
  {
    if i > 0 {
      SizeInTotal(rs[1..], i - 1);
    }
  }

  function AfterSend(rs: seq<Record>, window: nat): seq<Record> {
    if rs == [] then [] else rs[Run(rs, HEADER, rs[0].meta, Min(window, |Flatten(rs)|))..]
  }

  lemma SendIsTwoSteps(size: nat, overwrite: bool, rs: seq<Record>, window: nat, n: nat)
    requires |Flatten(rs)| <= size && n > 0
    ensures |Flatten(AfterSend(rs, window))| <= size
    ensures RunRecords(size, overwrite, Records(rs, None), Sends(window, n))
         == RunRecords(size, overwrite, Records(AfterSend(rs, window), None), Sends(window, n - 1))
  {
    hide Run, Flatten, Total, Refused, ToEvict;
    var ops := Sends(window, n);
    assert ops[0] == Read(window) && ops[1..][0] == Release && ops[1..][1..] == Sends(window, n - 1);
    var r1 := OnRecords(size, overwrite, Records(rs, None), Read(window));
    assert OnRecords(size, overwrite, r1, Release) == Records(AfterSend(rs, window), None);
    assert RunRecords(size, overwrite, r1, ops[1..])
        == RunRecords(size, overwrite, Records(AfterSend(rs, window), None), ops[1..][1..]);
    if rs != [] {
      OneSend(rs, window);
    }
  }

  lemma {:induction false} SendsDrain(size: nat, overwrite: bool, rs: seq<Record>, window: nat, n: nat)
    requires |Flatten(rs)| <= size && |rs| <= n
    requires forall i :: 0 <= i < |rs| ==> FitsWindow(rs[i], window)
    ensures RunRecords(size, overwrite, Records(rs, None), Sends(window, n)).rs == []
    decreases n
  {
    hide Run, Flatten, FitsWindow, OnRecords;
    if n > 0 {
      SendIsTwoSteps(size, overwrite, rs, window, n);
      if rs != [] {
        OneSend(rs, window);
      }
      SendsDrain(size, overwrite, AfterSend(rs, window), window, n - 1);
    }
  }

  lemma {:induction false} SendsStop(size: nat, overwrite: bool, rs: seq<Record>, window: nat, i: nat, n: nat)
    requires |Flatten(rs)| <= size && i < |rs| && !FitsWindow(rs[i], window)
    ensures RunRecords(size, overwrite, Records(rs, None), Sends(window, n)).rs != []
    decreases n
  {
    hide Run, Flatten, FitsWindow, OnRecords;
    if n > 0 {
      SendIsTwoSteps(size, overwrite, rs, window, n);
      OneSend(rs, window);
      var k := Run(rs, HEADER, rs[0].meta, Min(window, |Flatten(rs)|));
      assert rs[k..][i - k] == rs[i];
      SendsStop(size, overwrite, rs[k..], window, i - k, n - 1);
    }
  }

  /**
    Repeated undisturbed sends empty the ring, in at most one a record, exactly when every record fits the read
    window. A record that does not fit stays, with everything behind it.
   */
  lemma SendsDrainExactly(size: nat, overwrite: bool, rs: seq<Record>, window: nat)
    requires |Flatten(rs)| <= size
    ensures var all := forall i :: 0 <= i < |rs| ==> FitsWindow(rs[i], window);
      && (all ==> RunRecords(size, overwrite, Records(rs, None), Sends(window, |rs|)).rs == [])
      && (!all ==> forall n :: RunRecords(size, overwrite, Records(rs, None), Sends(window, n)).rs != [])
  {
    hide FitsWindow, RunRecords, Flatten;
    if forall i :: 0 <= i < |rs| ==> FitsWindow(rs[i], window) {
      SendsDrain(size, overwrite, rs, window, |rs|);
    } else {
      var i :| 0 <= i < |rs| && !FitsWindow(rs[i], window);
      forall n: nat ensures RunRecords(size, overwrite, Records(rs, None), Sends(window, n)).rs != [] {
        SendsStop(size, overwrite, rs, window, i, n);
      }
    }
  }
}
