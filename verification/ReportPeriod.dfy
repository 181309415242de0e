/** The adaptive reporting period: doubled after an interval that sent data, halved after an idle one. */
module ReportPeriod {
  import opened Bytes

  function Max(a: nat, b: nat): nat {
    if a >= b then a else b
  }

  /** One timer callback, in 32-bit arithmetic. */
  function Adapt(cur: nat, min: nat, max: nat, sent: bool): nat {
    if sent then Min(Cut32(cur * 2), max) else Max(cur / 2, min)
  }

  /** A doubling that overflows wraps around; what is left may still be no less than the minimum. */
  predicate KeepsRange(cur: nat, min: nat, sent: bool) {
    !sent || 2 * cur < U32 || 2 * cur - U32 >= min
  }

  lemma AdaptKeepsRange(cur: nat, min: nat, max: nat, sent: bool)
    requires 0 < min <= max < U32
    ensures Adapt(cur, min, max, sent) <= max || cur > 2 * max + 1
    ensures min <= cur <= max ==> (min <= Adapt(cur, min, max, sent) <= max <==> KeepsRange(cur, min, sent))
  {
  }

  /** The registered handler's timer, with the flag that data was sent since the last callback. */
  class PeriodicEntry {
    const minSeconds: nat
    const maxSeconds: nat
    var curSeconds: nat
    var dataSent: bool

    ghost predicate Ok()
      reads this
    {
      0 < minSeconds <= maxSeconds < U32 && curSeconds < U32
    }

    ghost predicate InRange()
      reads this
    {
      minSeconds <= curSeconds <= maxSeconds
    }

    /** `esp_insights_register_periodic_handler` starts at the minimum. */
    constructor (min: nat, max: nat)
      requires 0 < min <= max < U32
      ensures Ok() && InRange() && curSeconds == min && minSeconds == min && maxSeconds == max && !dataSent
    {
      minSeconds, maxSeconds, curSeconds, dataSent := min, max, min, false;
    }

    /** `esp_insights_common_cb`; the returned period is in milliseconds, as a 32-bit product. */
    method OnTimer() returns (period: nat)
      requires Ok()
      modifies this
      ensures Ok() && !dataSent && curSeconds == Adapt(old(curSeconds), minSeconds, maxSeconds, old(dataSent))
      ensures old(InRange()) ==> (InRange() <==> KeepsRange(old(curSeconds), minSeconds, old(dataSent)))
      ensures period == curSeconds * 1000 % U32
    {
      AdaptKeepsRange(curSeconds, minSeconds, maxSeconds, dataSent);
      var lDataSent := dataSent;
      dataSent := false;
      if lDataSent {
        curSeconds := Cut32(curSeconds * 2);
        if curSeconds > maxSeconds {
          curSeconds := maxSeconds;
        }
      } else {
        curSeconds := curSeconds / 2;
        if curSeconds < minSeconds {
          curSeconds := minSeconds;
        }
      }
      period := Cut32(curSeconds * 1000);
    }
  }

  /** The period after a sequence of intervals, from the minimum. */
  function After(min: nat, max: nat, sent: seq<bool>): nat {
    if sent == [] then min else Adapt(After(min, max, sent[..|sent| - 1]), min, max, sent[|sent| - 1])
  }

  function Pow2(n: nat): (p: nat)
    ensures p > 0
  {
    if n == 0 then 1 else 2 * Pow2(n - 1)
  }

  /** `n` intervals of one kind. */
  function Same(sent: bool, n: nat): seq<bool> {
    seq(n, _ => sent)
  }

  lemma OneMore(min: nat, max: nat, before: seq<bool>, sent: bool, n: nat)
    ensures before + Same(sent, 0) == before
    ensures After(min, max, before + Same(sent, n + 1))
         == Adapt(After(min, max, before + Same(sent, n)), min, max, sent)
  {
    var all := before + Same(sent, n + 1);
    assert all[..|all| - 1] == before + Same(sent, n);
  }

  lemma {:induction false} NeverAboveMaximum(min: nat, max: nat, sent: seq<bool>)
    requires 0 < min <= max < U32
    ensures After(min, max, sent) <= max
    decreases |sent|
  {
    if sent != [] {
      NeverAboveMaximum(min, max, sent[..|sent| - 1]);
    }
  }

  function DoubledTimes(cur: nat, n: nat): nat {
    cur * Pow2(n)
  }

  lemma DoubledOnce(cur: nat, n: nat)
    requires n > 0
    ensures DoubledTimes(cur, 0) == cur && DoubledTimes(cur, n) == 2 * DoubledTimes(cur, n - 1)
  {
    DoubleFactor(cur, Pow2(n - 1));
  }

  /** `n` sending intervals after `before` double the period `n` times, up to the maximum. */
  predicate Doubled(min: nat, max: nat, before: seq<bool>, n: nat) {
    After(min, max, before + Same(true, n)) == Min(max, DoubledTimes(After(min, max, before), n))
  }

  /** The last of `n` doublings, the largest, fits 32 bits. */
  predicate DoublingsFit(max: nat, cur: nat, n: nat) {
    n == 0 || 2 * Min(max, DoubledTimes(cur, n - 1)) < U32
  }

  /** Whatever came before, up to `n` sending intervals double each time exactly when no doubling overflows. */
  lemma {:induction false} BusyIntervals(min: nat, max: nat, before: seq<bool>, n: nat)
    requires 0 < min <= max < U32
    ensures (forall m :: 0 <= m <= n ==> Doubled(min, max, before, m))
       <==> DoublingsFit(max, After(min, max, before), n)
    decreases n
  {
    hide Doubled, DoublingsFit, After;
    if n == 0 {
      DoubledNotAtAll(min, max, before);
    } else {
      BusyIntervals(min, max, before, n - 1);
      FitsBefore(max, After(min, max, before), n);
      if Doubled(min, max, before, n - 1) {
        DoubledOnceMore(min, max, before, n);
      }
    }
  }

  lemma DoubledNotAtAll(min: nat, max: nat, before: seq<bool>)
    requires 0 < min <= max < U32
    ensures Doubled(min, max, before, 0) && DoublingsFit(max, After(min, max, before), 0)
  {
    hide Adapt, After, DoubledTimes;
    OneMore(min, max, before, true, 0);
    DoubledOnce(After(min, max, before), 1);
    NeverAboveMaximum(min, max, before);
  }

  lemma DoubledOnceMore(min: nat, max: nat, before: seq<bool>, n: nat)
    requires 0 < min <= max < U32 && n > 0 && Doubled(min, max, before, n - 1)
    ensures Doubled(min, max, before, n) <==> DoublingsFit(max, After(min, max, before), n)
  {
    hide Adapt, After, Min, DoubledTimes;
    var cur := After(min, max, before);
    OneMore(min, max, before, true, n - 1);
    DoubledOnce(cur, n);
    DoubleCapped(DoubledTimes(cur, n - 1), min, max);
  }

  lemma FitsBefore(max: nat, cur: nat, n: nat)
    requires n > 0
    ensures DoublingsFit(max, cur, n) ==> DoublingsFit(max, cur, n - 1)
  {
    hide DoubledTimes;
    if n > 1 {
      DoubledOnce(cur, n - 1);
    }
  }

  lemma DoubleFactor(a: nat, b: nat)
    ensures a * (2 * b) == 2 * (a * b)
  {
  }

  lemma DoubleCapped(x: nat, min: nat, max: nat)
    requires max < U32
    ensures Adapt(Min(max, x), min, max, true) == Min(max, 2 * x) <==> 2 * Min(max, x) < U32
  {
  }

  function Div(a: nat, d: nat): nat
    requires d > 0
  {
    a / d
  }

  function Halved(cur: nat, n: nat): nat {
    Div(cur, Pow2(n))
  }

  /**
    Whatever came before, `n` idle intervals halve `n` times, but no less than the minimum. The one exception is
    no interval at all after an overflow has left the period below the minimum.
   */
  lemma IdleIntervals(min: nat, max: nat, before: seq<bool>, n: nat)
    requires 0 < min <= max < U32
    ensures var cur := After(min, max, before);
      After(min, max, before + Same(false, n)) == Max(min, Halved(cur, n)) <==> n > 0 || min <= cur
  {
    hide Adapt, After, Halved;
    if n == 0 {
      OneMore(min, max, before, false, 0);
      HalvedOnceMore(After(min, max, before), 1);
    } else {
      SomeIdleIntervals(min, max, before, n);
    }
  }

  lemma {:induction false} SomeIdleIntervals(min: nat, max: nat, before: seq<bool>, n: nat)
    requires 0 < min <= max < U32 && n > 0
    ensures After(min, max, before + Same(false, n)) == Max(min, Halved(After(min, max, before), n))
    decreases n
  {
    hide Adapt, After, Max, Halved;
    var cur := After(min, max, before);
    OneMore(min, max, before, false, n - 1);
    HalvedOnceMore(cur, n);
    HalveFloored(Halved(cur, n - 1), min, max);
    if n == 1 {
      OneMore(min, max, before, false, 0);
    } else {
      SomeIdleIntervals(min, max, before, n - 1);
    }
  }

  lemma HalveFloored(x: nat, min: nat, max: nat)
    ensures Adapt(Max(min, x), min, max, false) == Adapt(x, min, max, false) == Max(min, x / 2)
  {
  }

  lemma HalvedOnceMore(cur: nat, n: nat)
    requires n > 0
    ensures Halved(cur, 0) == cur && Halved(cur, n) == Halved(cur, n - 1) / 2
  {
    assert Pow2(0) == 1 && cur / 1 == cur;
    HalveQuotient(cur, Pow2(n - 1));
  }

  lemma HalveQuotient(a: nat, d: nat)
    requires d > 0
    ensures a / d / 2 == a / (2 * d)
  {
    var q := a / d;
    var h := q / 2;
    assert a == q * d + a % d;
    if q == 2 * h {
      assert a == h * (2 * d) + a % d;
      Quotient(a, 2 * d, h, a % d);
    } else {
      assert q == 2 * h + 1;
      assert a == h * (2 * d) + (d + a % d);
      Quotient(a, 2 * d, h, d + a % d);
    }
  }

  lemma Quotient(a: nat, d: nat, q: nat, r: nat)
    requires d > 0 && a == q * d + r && r < d
    ensures a / d == q
  {
    var p := a / d;
    assert p < q ==> (p + 1) * d <= q * d;
    assert q < p ==> (q + 1) * d <= p * d;
  }

  // ---- the range, over whole runs ----

  predicate WithinRange(min: nat, max: nat, sent: seq<bool>) {
    min <= After(min, max, sent) <= max
  }

  predicate KeptAt(min: nat, max: nat, sent: seq<bool>, k: nat)
    requires k < |sent|
  {
    KeepsRange(After(min, max, sent[..k]), min, sent[k])
  }

  /** Up to the end of any run the period stays in its range exactly when no doubling of the run wraps below it. */
  lemma {:induction false} PeriodStaysInRange(min: nat, max: nat, sent: seq<bool>)
    requires 0 < min <= max < U32
    ensures (forall k :: 0 <= k <= |sent| ==> WithinRange(min, max, sent[..k]))
       <==> (forall k :: 0 <= k < |sent| ==> KeptAt(min, max, sent, k))
    decreases |sent|
  {
    hide Adapt, KeepsRange;
    assert sent[..|sent|] == sent;
    if sent == [] {
      assert sent[..0] == [];
    } else {
      var n := |sent| - 1;
      var rest := sent[..n];
      PeriodStaysInRange(min, max, rest);
      assert forall k :: 0 <= k <= n ==> rest[..k] == sent[..k];
      assert forall k :: 0 <= k < n ==> KeptAt(min, max, rest, k) == KeptAt(min, max, sent, k);
      AdaptKeepsRange(After(min, max, rest), min, max, sent[n]);
      assert WithinRange(min, max, rest) ==> (WithinRange(min, max, sent) <==> KeptAt(min, max, sent, n));
      assert (forall k :: 0 <= k <= |sent| ==> WithinRange(min, max, sent[..k])) ==> WithinRange(min, max, sent[..n]);
    }
  }

  predicate DoublingFits(min: nat, max: nat, sent: seq<bool>) {
    2 * After(min, max, sent) < U32
  }

  /** Doublings climb to the maximum if none overflows. */
  lemma {:induction false} BusyRunClimbs(min: nat, max: nat, n: nat)
    requires 0 < min <= max < U32 <= 2 * max && 0 < After(min, max, Same(true, n))
    ensures exists m :: !DoublingFits(min, max, Same(true, m))
    decreases U32 - After(min, max, Same(true, n))
  {
    NeverAboveMaximum(min, max, Same(true, n));
    if DoublingFits(min, max, Same(true, n)) {
      OneMore(min, max, [], true, n);
      assert [] + Same(true, n) == Same(true, n) && [] + Same(true, n + 1) == Same(true, n + 1);
      BusyRunClimbs(min, max, n + 1);
    }
  }

  /** No doubling overflows in any run exactly when twice the configured maximum fits 32 bits. */
  lemma DoublingFitsExactly(min: nat, max: nat)
    requires 0 < min <= max < U32
    ensures (forall sent :: DoublingFits(min, max, sent)) <==> 2 * max < U32
  {
    if 2 * max < U32 {
      forall sent ensures DoublingFits(min, max, sent) {
        NeverAboveMaximum(min, max, sent);
      }
    } else {
      assert Same(true, 0) == [];
      BusyRunClimbs(min, max, 0);
    }
  }

  /** So the period is in its range in every run then. */
  lemma RangeKeptWithoutOverflow(min: nat, max: nat, sent: seq<bool>)
    requires 0 < min <= max && 2 * max < U32
    ensures WithinRange(min, max, sent)
  {
    forall k | 0 <= k < |sent| ensures KeptAt(min, max, sent, k) {
      NeverAboveMaximum(min, max, sent[..k]);
    }
    PeriodStaysInRange(min, max, sent);
    assert sent[..|sent|] == sent;
  }

  /** With a larger maximum it can be left: two sending intervals from half of 2^31 end at 0, and more stay there. */
  lemma {:induction false} OverflowLeavesRange(n: nat)
    ensures After(0x4000_0000, 0x8000_0000, [true, true] + Same(true, n)) == 0
    decreases n
  {
    if n == 0 {
      assert [true, true][..1] == [true] && [true][..0] == [];
      assert After(0x4000_0000, 0x8000_0000, [true]) == 0x8000_0000;
      assert [true, true] + Same(true, 0) == [true, true];
    } else {
      OverflowLeavesRange(n - 1);
      OneMore(0x4000_0000, 0x8000_0000, [true, true], true, n - 1);
    }
  }

  /** Six or eleven, doubled at most 28 times. */
  predicate InOrbit(cur: nat) {
    exists i: nat :: i <= 28 && (cur == DoubledTimes(6, i) || cur == DoubledTimes(11, i))
  }

  lemma OrbitEnds()
    ensures DoubledTimes(6, 28) == 0x6000_0000 && DoubledTimes(11, 28) == 0xB000_0000
    ensures DoubledTimes(6, 0) == 6 && DoubledTimes(11, 0) == 11
  {
    assert Pow2(7) == 128;
    assert Pow2(14) == 0x4000;
    assert Pow2(21) == 0x20_0000;
    assert Pow2(28) == 0x1000_0000;
  }

  lemma {:induction false} OrbitGrows(base: nat, i: nat, j: nat)
    requires i <= j
    ensures DoubledTimes(base, i) <= DoubledTimes(base, j)
    decreases j - i
  {
    hide DoubledTimes;
    if i < j {
      DoubledOnce(base, j);
      OrbitGrows(base, i, j - 1);
    }
  }

  lemma OrbitCloses(cur: nat, sent: bool)
    requires InOrbit(cur)
    ensures InOrbit(Adapt(cur, 6, 0xB000_0000, sent)) && 6 <= cur <= 0xB000_0000
  {
    hide DoubledTimes;
    OrbitEnds();
    var i: nat :| i <= 28 && (cur == DoubledTimes(6, i) || cur == DoubledTimes(11, i));
    var base := if cur == DoubledTimes(6, i) then 6 else 11;
    OrbitGrows(base, 0, i);
    OrbitGrows(base, i, 28);
    var next := Adapt(cur, 6, 0xB000_0000, sent);
    if sent && i < 28 {
      OrbitGrows(base, i + 1, 28);
      DoubledOnce(base, i + 1);
      assert next == DoubledTimes(base, i + 1);
    } else if !sent && i > 0 {
      DoubledOnce(base, i);
      OrbitGrows(base, 0, i - 1);
      assert next == DoubledTimes(base, i - 1);
    } else if sent {
      assert next == DoubledTimes(if base == 6 then 11 else 6, 28);
    } else {
      assert next == DoubledTimes(6, 0);
    }
  }

  /** An overflow need not leave the range: between 6 and 0xB000_0000 seconds it happens, and no run leaves it. */
  lemma {:induction false} OverflowMayStayInRange(sent: seq<bool>)
    ensures InOrbit(After(6, 0xB000_0000, sent)) && WithinRange(6, 0xB000_0000, sent)
    decreases |sent|
  {
    hide InOrbit;
    if sent == [] {
      SixIsInOrbit();
    } else {
      OverflowMayStayInRange(sent[..|sent| - 1]);
      OrbitCloses(After(6, 0xB000_0000, sent[..|sent| - 1]), sent[|sent| - 1]);
    }
    OrbitCloses(After(6, 0xB000_0000, sent), true);
  }

  lemma SixIsInOrbit()
    ensures InOrbit(6)
  {
    OrbitEnds();
    assert 6 == DoubledTimes(6, 0);
  }

  /** Neither the next doubling nor the period in milliseconds overflows. */
  predicate NothingOverflows(min: nat, max: nat, sent: seq<bool>) {
    After(min, max, sent) * 2 < U32 && After(min, max, sent) * 1000 < U32
  }

  /** Doubling from a period whose product still fits ends above that range, before any shift overflows. */
  lemma {:induction false} BusyRunExceeds(min: nat, max: nat, n: nat)
    requires 0 < After(min, max, Same(true, n)) <= 4294967 < max
    ensures exists m :: !NothingOverflows(min, max, Same(true, m))
    decreases 4294967 - After(min, max, Same(true, n))
  {
    assert Same(true, n + 1)[..n] == Same(true, n);
    if After(min, max, Same(true, n + 1)) <= 4294967 {
      BusyRunExceeds(min, max, n + 1);
    } else {
      assert !NothingOverflows(min, max, Same(true, n + 1));
    }
  }

  /** Doubling and the millisecond product fit 32 bits in every run exactly when the maximum is at most 4294967. */
  lemma PeriodFitsExactly(min: nat, max: nat)
    requires 0 < min <= max < U32
    ensures (forall sent :: NothingOverflows(min, max, sent)) <==> max <= 4294967
  {
    if max <= 4294967 {
      forall sent ensures NothingOverflows(min, max, sent) {
        NeverAboveMaximum(min, max, sent);
      }
    } else {
      assert Same(true, 0) == [];
      if min <= 4294967 {
        BusyRunExceeds(min, max, 0);
      } else {
        assert !NothingOverflows(min, max, []);
      }
    }
  }
}
