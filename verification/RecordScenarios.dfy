/**
  Two runs in which a release cuts a record in two: one with an eviction between the read and the release, one
  with a discard. What lies at the head of the ring afterwards is no record, and the next eviction reads it as one.
 */
module RecordScenarios {
  import opened Bytes
  import opened RingMemory
  import opened Framing
  import opened Consumption
  import opened RecordRuns

  const SIZE := 146
  const WINDOW := 100

  /** A point of 56 bytes, all zero. */
  function Small(): Record {
    Record(0, seq(56, _ => 0))
  }

  /** A point of 80 bytes with one byte that is not zero. */
  function Large(): Record {
    Record(0, seq(80, i => if i == 58 then 255 else 0))
  }

  function EvictionBetween(): seq<Op> {
    [Put(Small()), Put(Large()), Read(WINDOW), Put(Small())]
  }

  function DiscardBetween(): seq<Op> {
    [Put(Small()), Read(WINDOW), Discard, Put(Large())]
  }

  lemma Lengths()
    ensures |Frame(Small())| == 61 && |Frame(Large())| == 85
    ensures Flatten([]) == [] && |Flatten([Small()])| == 61 && |Flatten([Large()])| == 85
    ensures |Flatten([Small(), Large()])| == 146 && |Flatten([Large(), Small()])| == 146
    ensures Storable(Small()) && Storable(Large())
  {
    OneRecord(Small());
    OneRecord(Large());
    FlattenConcat([Small()], [Large()]);
    FlattenConcat([Large()], [Small()]);
    assert [Small()] + [Large()] == [Small(), Large()] && [Large()] + [Small()] == [Large(), Small()];
  }

  /** The window holds the small record and part of the large one. */
  lemma FirstIsTaken(rs: seq<Record>)
    requires rs == [Small()] || rs == [Small(), Large()]
    ensures Run(rs, HEADER, 0, Min(WINDOW, |Flatten(rs)|)) == 1 && Total(rs[..1], HEADER) == 61
  {
    Lengths();
    assert Size(Small(), HEADER) == 61 && Size(Large(), HEADER) == 85;
    assert rs[..1][1..] == [];
    assert rs[1..] == [] || rs[1..] == [Large()];
    hide Flatten;
  }

  lemma OneEvicted()
    ensures Evicted([Small(), Large()], 0, 61) == 1
  {
    Lengths();
    assert [Small(), Large()][1..] == [Large()];
    assert Evicted([Large()], 61, 61) == 0;
  }

  lemma EvictionRun()
    ensures CleanRun(SIZE, true, Records([], None), EvictionBetween())
    ensures RunRecords(SIZE, true, Records([], None), EvictionBetween())
         == Records([Large(), Small()], Some(Taken(1, 61, true)))
  {
    hide Flatten, Frame, Evicted, Run, Total, Small, Large;
    Lengths();
    FirstIsTaken([Small(), Large()]);
    OneEvicted();
    NoneEvicted();
    var r0 := Records([], None);
    var r1 := OnRecords(SIZE, true, r0, Put(Small()));
    assert [][0..] + [Small()] == [Small()];
    assert r1 == Records([Small()], None);
    var r2 := OnRecords(SIZE, true, r1, Put(Large()));
    assert [Small()][0..] + [Large()] == [Small(), Large()];
    assert r2 == Records([Small(), Large()], None);
    var r3 := OnRecords(SIZE, true, r2, Read(WINDOW));
    assert Small().meta == 0 by { MetaIsZero(); }
    assert r3 == Records([Small(), Large()], Some(Taken(1, 61, false)));
    var r4 := OnRecords(SIZE, true, r3, Put(Small()));
    assert [Small(), Large()][1..] + [Small()] == [Large(), Small()];
    assert r4 == Records([Large(), Small()], Some(Taken(1, 61, true)));
    FourSteps(SIZE, true, EvictionBetween(), r0, r1, r2, r3, r4);
  }

  lemma MetaIsZero()
    ensures Small().meta == 0 && Small().payload != [] && Large().payload != []
  {
  }

  lemma NoneEvicted()
    ensures Evicted([], 146, 61) == 0 && Evicted([Small()], 85, 85) == 0
  {
  }

  lemma FourSteps(size: nat, overwrite: bool, ops: seq<Op>, r0: Records, r1: Records, r2: Records, r3: Records,
                  r4: Records)
    requires |ops| == 4 && |Flatten(r0.rs)| <= size && |Flatten(r1.rs)| <= size && |Flatten(r2.rs)| <= size
    requires |Flatten(r3.rs)| <= size && forall i :: 0 <= i < 4 ==> !ops[i].Release?
    requires r1 == OnRecords(size, overwrite, r0, ops[0]) && r2 == OnRecords(size, overwrite, r1, ops[1])
    requires r3 == OnRecords(size, overwrite, r2, ops[2]) && r4 == OnRecords(size, overwrite, r3, ops[3])
    ensures CleanRun(size, overwrite, r0, ops) && RunRecords(size, overwrite, r0, ops) == r4
  {
    hide OnRecords, Flatten;
    var a, b, c := ops[1..], ops[1..][1..], ops[1..][1..][1..];
    assert a[0] == ops[1] && b[0] == ops[2] && c[0] == ops[3] && c[1..] == [];
    assert RunRecords(size, overwrite, r3, c) == r4 && CleanRun(size, overwrite, r3, c);
    assert RunRecords(size, overwrite, r2, b) == r4 && CleanRun(size, overwrite, r2, b);
    assert RunRecords(size, overwrite, r1, a) == r4 && CleanRun(size, overwrite, r1, a);
  }

  lemma DiscardRun()
    ensures CleanRun(SIZE, false, Records([], None), DiscardBetween())
    ensures RunRecords(SIZE, false, Records([], None), DiscardBetween())
         == Records([Large()], Some(Taken(1, 61, true)))
  {
    hide Flatten, Frame, Evicted, Run, Total, Small, Large;
    Lengths();
    FirstIsTaken([Small()]);
    MetaIsZero();
    var r0 := Records([], None);
    var r1 := OnRecords(SIZE, false, r0, Put(Small()));
    assert [][0..] + [Small()] == [Small()];
    assert r1 == Records([Small()], None);
    var r2 := OnRecords(SIZE, false, r1, Read(WINDOW));
    assert r2 == Records([Small()], Some(Taken(1, 61, false)));
    var r3 := OnRecords(SIZE, false, r2, Discard);
    assert r3 == Records([], Some(Taken(1, 61, true)));
    var r4 := OnRecords(SIZE, false, r3, Put(Large()));
    assert [][0..] + [Large()] == [Large()];
    assert r4 == Records([Large()], Some(Taken(1, 61, true)));
    FourSteps(SIZE, false, DiscardBetween(), r0, r1, r2, r3, r4);
  }

  /** What is left of the large record after 61 bytes: five bytes that read as a header with a length of 65280. */
  lemma CutRecordHeader(tail: seq<byte>)
    ensures var q := (Frame(Large()) + tail)[61..];
      |q| == 24 + |tail| && LeValue(q[1..1 + HEADER]) == 65280
  {
    var f := Frame(Large());
    var q := (f + tail)[61..];
    assert forall i :: 0 <= i < 24 ==> q[i] == Large().payload[56 + i];
    assert q[1..5] == [0, 255, 0, 0];
    HeaderValue();
  }

  lemma HeaderValue()
    ensures LeValue([0, 255, 0, 0]) == 65280
  {
    assert [0, 255, 0, 0][1..] == [255, 0, 0] && [255, 0, 0][1..] == [0, 0] && [0, 0][1..] == [0];
    assert LeValue([0]) == 0 && LeValue([0, 0]) == 0 && LeValue([255, 0, 0]) == 255;
  }

  /** Such a queue holds no record, and evicting its "oldest" leaves fields that fail every check. */
  predicate Broken(m: Memory) {
    && Valid(m) && !Framed(Queue(m)) && |Queue(m)| >= 1 + HEADER
    && !Valid(Apply(m, CommitRead(m, 1 + HEADER + LeValue(Queue(m)[1..1 + HEADER]))))
  }

  lemma CutBreaks(s: Ring, r: Records, tail: seq<Record>)
    requires Agree(s, r) && |s.mem.buf| == SIZE && r.rs == [Large()] + tail
    requires r.taken == Some(Taken(1, 61, true))
    ensures Broken(StoreRelease(s).mem)
  {
    hide LeValue, Frame, Large, Flatten;
    HoldsParsed(s.mem, r.rs);
    FlattenConcat([Large()], tail);
    OneRecord(Large());
    Lengths();
    ReleaseIsAtomic(s.mem, 61);
    CutRecordHeader(Flatten(tail));
    var n := StoreRelease(s).mem;
    assert Queue(n) == (Frame(Large()) + Flatten(tail))[61..];
    NotFramed(Queue(n));
  }

  lemma NotFramed(q: seq<byte>)
    requires |q| >= 1 + HEADER && LeValue(q[1..1 + HEADER]) + 1 + HEADER > |q|
    ensures !Framed(q)
  {
  }

  /**
    With overwriting: the small record is read, a write evicts it, and the release of its 61 bytes cuts the large
    one. Without: the same by a discard.
   */
  lemma ReleaseBetweenSectionsBreaks()
    ensures Broken(RunRing(Start(SIZE), true, EvictionBetween() + [Release]).mem)
    ensures Broken(RunRing(Start(SIZE), false, DiscardBetween() + [Release]).mem)
  {
    hide OnRecords, RunRecords, CleanRun, EvictionBetween, DiscardBetween, Broken, Agree, RunRing, StoreRelease,
         Large, Small;
    StartAgrees(SIZE);
    EvictionRun();
    RunRefines(Start(SIZE), Records([], None), true, EvictionBetween());
    var evicted := Records([Large(), Small()], Some(Taken(1, 61, true)));
    assert evicted.rs == [Large()] + [Small()];
    CutBreaks(RunRing(Start(SIZE), true, EvictionBetween()), evicted, [Small()]);
    ThenRelease(Start(SIZE), true, EvictionBetween(), evicted);
    DiscardRun();
    RunRefines(Start(SIZE), Records([], None), false, DiscardBetween());
    var discarded := Records([Large()], Some(Taken(1, 61, true)));
    assert discarded.rs == [Large()] + [];
    CutBreaks(RunRing(Start(SIZE), false, DiscardBetween()), discarded, []);
    ThenRelease(Start(SIZE), false, DiscardBetween(), discarded);
  }

  lemma {:induction false} RunThen(s: Ring, overwrite: bool, a: seq<Op>, b: seq<Op>)
    requires Valid(RunRing(s, overwrite, a).mem)
    ensures RunRing(s, overwrite, a + b) == RunRing(RunRing(s, overwrite, a), overwrite, b)
    decreases |a|
  {
    hide Exec;
    if a == [] {
      assert a + b == b;
    } else if Valid(s.mem) {
      assert (a + b)[1..] == a[1..] + b;
      RunThen(Exec(s, overwrite, a[0]), overwrite, a[1..], b);
    }
  }

  lemma ThenRelease(s: Ring, overwrite: bool, ops: seq<Op>, r: Records)
    requires Agree(RunRing(s, overwrite, ops), r) && r.taken.Some?
    ensures RunRing(s, overwrite, ops + [Release]) == StoreRelease(RunRing(s, overwrite, ops))
  {
    hide StoreRelease;
    AgreeIsValid(RunRing(s, overwrite, ops), r);
    RunThen(s, overwrite, ops, [Release]);
    assert [Release][1..] == [];
  }
}
