/**
  How much of a read window the encoder may hand back for release. Both queues hold records that start
  with an index byte; log records have no length field (`h == 0`), data points have one (`h == HEADER`).
 */
module Consumption {
  import opened Bytes
  import opened Framing

  function Size(r: Record, h: nat): nat {
    1 + h + |r.payload|
  }

  function Total(rs: seq<Record>, h: nat): nat {
    if rs == [] then 0 else Size(rs[0], h) + Total(rs[1..], h)
  }

  /** Leading records with index `meta` that lie wholly inside a window of `n` bytes. */
  function Run(rs: seq<Record>, h: nat, meta: byte, n: nat): (k: nat)
    ensures k <= |rs|
  {
    if rs == [] || rs[0].meta != meta || n < Size(rs[0], h) then 0
    else 1 + Run(rs[1..], h, meta, n - Size(rs[0], h))
  }

  lemma {:induction false} TotalTake(rs: seq<Record>, h: nat, k: nat)
    requires k < |rs|
    ensures Total(rs[..k + 1], h) == Size(rs[0], h) + Total(rs[1..][..k], h)
    ensures Total(rs[..k + 1], h) == Total(rs[..k], h) + Size(rs[k], h)
  {
    assert rs[..k + 1][1..] == rs[1..][..k];
    if k > 0 {
      TotalTake(rs[1..], h, k - 1);
      assert rs[..k][1..] == rs[1..][..k - 1];
    } else {
      assert rs[..1][1..] == [];
    }
  }

  /** The run is the longest prefix of whole records of one boot inside the window. */
  lemma {:induction false} RunIsLongest(rs: seq<Record>, h: nat, meta: byte, n: nat)
    ensures var k := Run(rs, h, meta, n);
      && (forall i :: 0 <= i < k ==> rs[i].meta == meta)
      && Total(rs[..k], h) <= n
      && (k < |rs| ==> rs[k].meta != meta || n < Total(rs[..k + 1], h))
    decreases |rs|
  {
    var k := Run(rs, h, meta, n);
    if k == 0 {
      if rs != [] {
        TotalTake(rs, h, 0);
      }
    } else {
      RunIsLongest(rs[1..], h, meta, n - Size(rs[0], h));
      TotalTake(rs, h, k - 1);
      if k < |rs| {
        TotalTake(rs, h, k);
      }
    }
  }

  lemma {:induction false} FlattenLength(rs: seq<Record>)
    ensures |Flatten(rs)| == Total(rs, HEADER)
    decreases |rs|
  {
    if rs != [] {
      FlattenLength(rs[1..]);
    }
  }

  /**
    Releasing what was consumed leaves whole records again, so the framing of the queue survives
    although the reader stops at an arbitrary window end.
   */
  lemma ReleaseKeepsFraming(q: seq<byte>, n: nat)
    requires Framed(q) && q != [] && n <= |q|
    ensures var rs := ParseRecords(q);
      var k := Run(rs, HEADER, q[0], n);
      var used := Total(rs[..k], HEADER);
      && used <= n && q[..used] == Flatten(rs[..k])
      && Framed(q[used..]) && ParseRecords(q[used..]) == rs[k..]
  {
    hide Flatten, ParseRecords, Run, Total;
    var rs := ParseRecords(q);
    var k := Run(rs, HEADER, q[0], n);
    RunIsLongest(rs, HEADER, q[0], n);
    FlattenLength(rs[..k]);
    assert rs == rs[..k] + rs[k..];
    FlattenConcat(rs[..k], rs[k..]);
    ParsedAreStorable(q);
    FlattenIsFramed(rs[k..]);
  }

  // ---- log records ----

  function LogFrame(r: Record): (s: seq<byte>)
    ensures |s| == Size(r, 0)
  {
    [r.meta] + r.payload
  }

  function FlattenLogs(rs: seq<Record>): (s: seq<byte>)
    ensures |s| == Total(rs, 0)
  {
    if rs == [] then [] else LogFrame(rs[0]) + FlattenLogs(rs[1..])
  }

  lemma {:induction false} FlattenLogsConcat(a: seq<Record>, b: seq<Record>)
    ensures FlattenLogs(a + b) == FlattenLogs(a) + FlattenLogs(b)
    decreases |a|
  {
    if a == [] {
      assert a + b == b;
    } else {
      assert (a + b)[1..] == a[1..] + b;
      FlattenLogsConcat(a[1..], b);
    }
  }

  predicate AllOfSize(rs: seq<Record>, size: nat) {
    forall i :: 0 <= i < |rs| ==> |rs[i].payload| == size
  }

  /** A window that holds one whole record is never left unconsumed. */
  lemma RunMakesProgress(rs: seq<Record>, h: nat, n: nat)
    requires rs != [] && Size(rs[0], h) <= n
    ensures Run(rs, h, rs[0].meta, n) > 0 && Total(rs[..Run(rs, h, rs[0].meta, n)], h) > 0
  {
    TotalTake(rs, h, Run(rs, h, rs[0].meta, n) - 1);
  }
}
