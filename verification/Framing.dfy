/**
  The framing of the non-critical ring: every record is an index byte, a four-byte length and
  that many payload bytes. A queue is framed when it is whole records and nothing else.
 */
module Framing {
  import opened Bytes

  datatype Record = Record(meta: byte, payload: seq<byte>)

  const HEADER := 4

  /** The writer refuses empty data, and the length field has 32 bits. */
  predicate Storable(r: Record) {
    0 < |r.payload| < U32
  }

  predicate AllStorable(rs: seq<Record>) {
    forall i :: 0 <= i < |rs| ==> Storable(rs[i])
  }

  function Frame(r: Record): (s: seq<byte>)
    ensures |s| == 1 + HEADER + |r.payload|
  {
    [r.meta] + LeBytes(|r.payload|, HEADER) + r.payload
  }

  function Flatten(rs: seq<Record>): seq<byte> {
    if rs == [] then [] else Frame(rs[0]) + Flatten(rs[1..])
  }

  /** The whole records at the head of `q`, up to the first cut or empty one. */
  function ParseRecords(q: seq<byte>): seq<Record>
    decreases |q|
  {
    if |q| < 1 + HEADER then [] else
      var n := LeValue(q[1..1 + HEADER]);
      if n == 0 || 1 + HEADER + n > |q| then []
      else [Record(q[0], q[1 + HEADER..1 + HEADER + n])] + ParseRecords(q[1 + HEADER + n..])
  }

  predicate Framed(q: seq<byte>) {
    Flatten(ParseRecords(q)) == q
  }

  lemma {:induction false} FlattenConcat(a: seq<Record>, b: seq<Record>)
    ensures Flatten(a + b) == Flatten(a) + Flatten(b)
    decreases |a|
  {
    if a == [] {
      assert a + b == b;
    } else {
      assert (a + b)[1..] == a[1..] + b;
      FlattenConcat(a[1..], b);
    }
  }

  lemma HeaderReadsBack(r: Record, tail: seq<byte>)
    requires Storable(r)
    ensures var q := Frame(r) + tail;
      && q[0] == r.meta && LeValue(q[1..1 + HEADER]) == |r.payload|
      && q[1 + HEADER..|Frame(r)|] == r.payload && q[|Frame(r)|..] == tail
  {
    var q := Frame(r) + tail;
    assert q[1..1 + HEADER] == LeBytes(|r.payload|, HEADER);
    Pow256Values();
    LeRoundTrip(|r.payload|, HEADER);
  }

  lemma ParseStep(r: Record, tail: seq<byte>)
    requires Storable(r)
    ensures ParseRecords(Frame(r) + tail) == [r] + ParseRecords(tail)
  {
    HeaderReadsBack(r, tail);
  }

  /** Records written one after another parse back to themselves, whatever follows. */
  lemma {:induction false} ParseFlatten(rs: seq<Record>, tail: seq<byte>)
    requires AllStorable(rs)
    ensures ParseRecords(Flatten(rs) + tail) == rs + ParseRecords(tail)
    decreases |rs|
  {
    hide ParseRecords, Frame;
    if rs == [] {
      assert Flatten(rs) + tail == tail;
    } else {
      var rest := Flatten(rs[1..]) + tail;
      assert Flatten(rs) + tail == Frame(rs[0]) + rest;
      ParseStep(rs[0], rest);
      ParseFlatten(rs[1..], tail);
      assert rs == [rs[0]] + rs[1..];
    }
  }

  lemma FlattenIsFramed(rs: seq<Record>)
    requires AllStorable(rs)
    ensures ParseRecords(Flatten(rs)) == rs && Framed(Flatten(rs))
  {
    ParseFlatten(rs, []);
    assert Flatten(rs) + [] == Flatten(rs);
  }

  lemma {:induction false} ParsedAreStorable(q: seq<byte>)
    ensures AllStorable(ParseRecords(q))
    decreases |q|
  {
    if |q| >= 1 + HEADER {
      var n := LeValue(q[1..1 + HEADER]);
      LeValueBound(q[1..1 + HEADER]);
      Pow256Values();
      if n != 0 && 1 + HEADER + n <= |q| {
        ParsedAreStorable(q[1 + HEADER + n..]);
      }
    }
  }

  /**
    A read window that ends anywhere, in the middle of a record or of its header, still yields
    exactly the whole records inside it: no fewer, and no reading beyond the cut.
   */
  lemma {:induction false} WindowRecords(rs: seq<Record>, n: nat)
    requires AllStorable(rs) && n <= |Flatten(rs)|
    ensures var k := |ParseRecords(Flatten(rs)[..n])|;
      && k <= |rs| && ParseRecords(Flatten(rs)[..n]) == rs[..k]
      && |Flatten(rs[..k])| <= n && (k < |rs| ==> n < |Flatten(rs[..k + 1])|)
    decreases |rs|
  {
    hide LeBytes, LeValue;
    if rs != [] {
      var f := Frame(rs[0]);
      var w := Flatten(rs)[..n];
      if n < |f| {
        assert w == f[..n];
        CutRecord(rs[0], w);
        FlattenTake(rs, 0);
      } else {
        var rest := Flatten(rs[1..])[..n - |f|];
        assert w == f + rest;
        ParseStep(rs[0], rest);
        WindowRecords(rs[1..], n - |f|);
        PrependWindow(rs, n, ParseRecords(rest));
      }
    }
  }

  lemma PrependWindow(rs: seq<Record>, n: nat, rest: seq<Record>)
    requires rs != [] && |rest| < |rs| && rest == rs[1..][..|rest|] && |Frame(rs[0])| <= n
    requires |Flatten(rest)| <= n - |Frame(rs[0])|
    requires |rest| + 1 < |rs| ==> n - |Frame(rs[0])| < |Flatten(rs[1..][..|rest| + 1])|
    ensures [rs[0]] + rest == rs[..|rest| + 1] && |Flatten(rs[..|rest| + 1])| <= n
    ensures |rest| + 1 < |rs| ==> n < |Flatten(rs[..|rest| + 2])|
  {
    FlattenTake(rs, |rest|);
    if |rest| + 1 < |rs| {
      FlattenTake(rs, |rest| + 1);
    }
  }

  lemma FlattenTake(rs: seq<Record>, k: nat)
    requires k < |rs|
    ensures Flatten(rs[..k + 1]) == Frame(rs[0]) + Flatten(rs[1..][..k])
  {
    assert rs[..k + 1][1..] == rs[1..][..k];
  }

  lemma CutRecord(r: Record, w: seq<byte>)
    requires Storable(r) && |w| < |Frame(r)| && w == Frame(r)[..|w|]
    ensures ParseRecords(w) == []
  {
    if |w| >= 1 + HEADER {
      HeaderReadsBack(r, []);
      assert w[1..1 + HEADER] == (Frame(r) + [])[1..1 + HEADER];
    }
  }

  // ---- eviction ----

  /** How many of the oldest records the overwrite loop removes to make `req` bytes fit. */
  function Evicted(rs: seq<Record>, free: nat, req: nat): (k: nat)
    ensures k <= |rs|
  {
    if free >= req || rs == [] then 0 else 1 + Evicted(rs[1..], free + |Frame(rs[0])|, req)
  }

  lemma EvictedStep(rs: seq<Record>, k: nat, free: nat, req: nat)
    requires k <= |rs| && free < req && Flatten(rs[k..]) != []
    ensures k < |rs| && Flatten(rs[k..]) == Frame(rs[k]) + Flatten(rs[k + 1..])
    ensures Evicted(rs[k..], free, req) == 1 + Evicted(rs[k + 1..], free + |Frame(rs[k])|, req)
  {
    assert rs[k..][1..] == rs[k + 1..];
  }

  /** No record is removed that could have stayed. */
  lemma {:induction false} EvictionIsMinimal(rs: seq<Record>, free: nat, req: nat)
    requires req <= free + |Flatten(rs)|
    ensures var k := Evicted(rs, free, req);
      && req <= free + |Flatten(rs[..k])|
      && forall j :: 0 <= j < k ==> free + |Flatten(rs[..j])| < req
    decreases |rs|
  {
    if free >= req {
    } else {
      var k := Evicted(rs[1..], free + |Frame(rs[0])|, req);
      EvictionIsMinimal(rs[1..], free + |Frame(rs[0])|, req);
      forall j | 0 < j <= k + 1 ensures |Flatten(rs[..j])| == |Frame(rs[0])| + |Flatten(rs[1..][..j - 1])| {
        FlattenTake(rs, j - 1);
      }
    }
  }
}
