/**
  What becomes of the data points of one round. They leave their ring when they are encoded, so the one message
  that carries them decides.
 */
module PointsFate {
  import opened SendProtocol
  import opened SendRuns
  import opened AnswerWindows

  predicate HasPoints(m: Message, points: Span) {
    m.DataMsg? && m.points == points
  }

  /** A message known to have arrived carried these points. */
  ghost predicate Delivered(t: Traffic, points: Span) {
    exists m :: m in t.delivered && HasPoints(m, points)
  }

  /** Points carried so far have lower numbers than those encoded next. */
  predicate Below(m: Message, n: nat) {
    m.DataMsg? ==> m.points.from + m.points.len <= n
  }

  predicate PhaseBelow(ph: Phase, n: nat) {
    ph.Peeked? || ph.DataSent? ==> Below(WindowMsg(ph), n)
  }

  predicate AllBelow(t: Traffic, n: nat) {
    (forall id :: id in t.sent ==> Below(t.sent[id], n)) && (forall m :: m in t.delivered ==> Below(m, n))
  }

  predicate Numbered(s: State) {
    AllBelow(s.traffic, s.encoded) && PhaseBelow(s.phase, s.encoded)
  }

  lemma IssueBelow(t: Traffic, n: nat, id: int, m: Message)
    requires AllBelow(t, n) && Below(m, n)
    ensures AllBelow(Issue(t, id, m), n)
  {
  }

  lemma LessBelow(t: Traffic, n: nat, id: int)
    requires AllBelow(t, n)
    ensures AllBelow(Arrive(t, id), n) && AllBelow(Forget(t), n)
    ensures forall ids: set<int> :: AllBelow(t.(pending := t.pending - ids), n)
  {
  }

  lemma HigherStillBelow(t: Traffic, n: nat, higher: nat)
    requires AllBelow(t, n) && n <= higher
    ensures AllBelow(t, higher)
  {
  }

  lemma StepNumbered(s: State, st: Step)
    requires Numbered(s) && Enabled(s, st)
    ensures Numbered(Next(s, st))
  {
    hide AllBelow, Next, Consumed, Issue, Arrive, Forget;
    TrafficOf(s, st);
    PhaseOf(s, st);
    EncodedOf(s, st);
    LessBelow(s.traffic, s.encoded, if st.AckStep? then st.id else 0);
    match st
    case Meta(_, result) => IssueBelow(s.traffic, s.encoded, result, MetaMsg);
    case SendBoot(result) => IssueBelow(s.traffic, s.encoded, result, BootMsg(s.boot));
    case Send(result) => IssueBelow(s.traffic, s.encoded, result, WindowMsg(s.phase));
    case PeekStep(n) => HigherStillBelow(s.traffic, s.encoded, s.encoded + n);
    case _ =>
  }

  lemma {:induction false} RunNumbered(s: State, steps: seq<Step>)
    requires Numbered(s) && RunOk(s, steps)
    ensures Numbered(After(s, steps))
    decreases |steps|
  {
    hide Numbered, Next, Enabled;
    if steps != [] {
      StepNumbered(s, steps[0]);
      RunNumbered(Next(s, steps[0]), steps[1..]);
    }
  }

  // ---- no message carries them, or one does ----

  /** Message `id`, and no other, carries the points; 0 when none does. */
  predicate OnlyIn(t: Traffic, points: Span, id: int) {
    && (forall i :: i in t.sent && HasPoints(t.sent[i], points) ==> i == id && id > 0)
    && (forall m :: m in t.delivered ==> !HasPoints(m, points))
    && (id > 0 ==> id in t.sent && HasPoints(t.sent[id], points))
  }

  /** They are encoded, and no read window will carry them again. */
  predicate Past(s: State, points: Span) {
    points.len > 0 && points.from + points.len <= s.encoded && (s.phase.Peeked? ==> s.phase.points != points)
  }

  lemma IssueOther(t: Traffic, points: Span, id: int, other: int, m: Message)
    requires OnlyIn(t, points, id) && Answerable(t, other) && !HasPoints(m, points)
    ensures OnlyIn(Issue(t, other, m), points, id)
  {
  }

  lemma ArriveOther(t: Traffic, points: Span, id: int, other: int)
    requires OnlyIn(t, points, id) && (other != id || id == 0)
    ensures OnlyIn(Arrive(t, other), points, id)
    ensures forall ids: set<int> :: OnlyIn(t.(pending := t.pending - ids), points, id)
    ensures OnlyIn(Forget(t), points, 0)
  {
  }

  lemma PastKept(s: State, st: Step, points: Span)
    requires Past(s, points) && Enabled(s, st)
    ensures Past(Next(s, st), points)
  {
    hide Next, Consumed;
    PhaseOf(s, st);
    EncodedOf(s, st);
  }

  lemma OtherStep(s: State, st: Step, points: Span, id: int)
    requires OnlyIn(s.traffic, points, id) && Past(s, points) && Enabled(s, st) && id >= 0
    requires !(st.AckStep? && st.id == id && id > 0) && !st.Reset?
    ensures OnlyIn(Next(s, st).traffic, points, id)
  {
    hide OnlyIn, Next, Issue, Arrive;
    TrafficOf(s, st);
    ArriveOther(s.traffic, points, id, if st.AckStep? then st.id else id + 1);
    match st
    case Meta(_, result) => IssueOther(s.traffic, points, id, result, MetaMsg);
    case SendBoot(result) => IssueOther(s.traffic, points, id, result, BootMsg(s.boot));
    case Send(result) => IssueOther(s.traffic, points, id, result, WindowMsg(s.phase));
    case _ =>
  }

  lemma ResetStep(s: State, crash: bool, points: Span, id: int)
    requires OnlyIn(s.traffic, points, id) && id >= 0
    ensures OnlyIn(Next(s, Reset(crash)).traffic, points, 0)
  {
    hide OnlyIn, Forget;
    ArriveOther(s.traffic, points, id, id + 1);
  }

  lemma AnswerDelivers(s: State, id: int, points: Span)
    requires OnlyIn(s.traffic, points, id) && id > 0 && Enabled(s, AckStep(id))
    ensures Delivered(Next(s, AckStep(id)).traffic, points)
  {
    hide Release;
    assert s.traffic.sent[id] in Next(s, AckStep(id)).traffic.delivered;
  }

  lemma DeliveredStays(s: State, st: Step, points: Span)
    requires Enabled(s, st) && Delivered(s.traffic, points)
    ensures Delivered(Next(s, st).traffic, points)
  {
    hide Next, Enabled;
    DeliveredGrows(s, st);
  }

  lemma {:induction false} RunDelivered(s: State, steps: seq<Step>, points: Span)
    requires RunOk(s, steps) && Delivered(s.traffic, points)
    ensures Delivered(After(s, steps).traffic, points)
    decreases |steps|
  {
    hide Next, Enabled, Delivered;
    if steps != [] {
      DeliveredStays(s, steps[0], points);
      RunDelivered(Next(s, steps[0]), steps[1..], points);
    }
  }

  /** A success event for `id` comes before the next reset, after which the id would stand for another message. */
  predicate Answered(steps: seq<Step>, id: int)
    decreases |steps|
  {
    steps != [] && !steps[0].Reset? && ((steps[0].AckStep? && steps[0].id == id) || Answered(steps[1..], id))
  }

  lemma {:induction false} FateOfCarried(s: State, steps: seq<Step>, points: Span, id: int)
    requires OnlyIn(s.traffic, points, id) && Past(s, points) && id >= 0 && RunOk(s, steps)
    ensures Delivered(After(s, steps).traffic, points) <==> id > 0 && Answered(steps, id)
    decreases |steps|
  {
    hide OnlyIn, Past, Next, Enabled, Delivered;
    if steps == [] {
      NotYet(s.traffic, points, id);
    } else {
      var st := steps[0];
      PastKept(s, st, points);
      if st.Reset? {
        ResetStep(s, st.crash, points, id);
        FateOfCarried(Next(s, st), steps[1..], points, 0);
      } else if st.AckStep? && st.id == id && id > 0 {
        AnswerDelivers(s, id, points);
        RunDelivered(Next(s, st), steps[1..], points);
      } else {
        OtherStep(s, st, points, id);
        FateOfCarried(Next(s, st), steps[1..], points, id);
      }
    }
  }

  lemma NotYet(t: Traffic, points: Span, id: int)
    requires OnlyIn(t, points, id)
    ensures !Delivered(t, points)
  {
  }

  // ---- the rounds that lose their points ----

  lemma ReadIsNew(s: State, nonCritical: nat)
    requires Numbered(s) && s.phase.AtData? && nonCritical > 0
    ensures var p := Peek(s, nonCritical);
      && p.phase.Peeked? && p.phase.points == Span(s.encoded, nonCritical) && p == Next(s, PeekStep(nonCritical))
      && OnlyIn(p.traffic, p.phase.points, 0) && p.encoded == s.encoded + nonCritical
  {
    hide Consumed;
  }

  lemma {:induction false} WaitKeepsNone(s: State, steps: seq<Step>)
    requires s.phase.Peeked? && OnlyIn(s.traffic, s.phase.points, 0) && s.phase.points.len > 0
    requires s.phase.points.from + s.phase.points.len <= s.encoded && RunOk(s, steps) && NotSentYet(steps)
    ensures var n := After(s, steps);
      n.phase == s.phase && OnlyIn(n.traffic, s.phase.points, 0) && s.encoded <= n.encoded
    decreases |steps|
  {
    hide OnlyIn, Next, Enabled;
    if steps != [] {
      WindowStaysOneStep(s, steps[0]);
      WaitStep(s, steps[0]);
      WaitKeepsNone(Next(s, steps[0]), steps[1..]);
    }
  }

  lemma WaitStep(s: State, st: Step)
    requires s.phase.Peeked? && OnlyIn(s.traffic, s.phase.points, 0) && Enabled(s, st) && !st.Reset? && !st.Send?
    ensures OnlyIn(Next(s, st).traffic, s.phase.points, 0) && s.encoded <= Next(s, st).encoded
  {
    hide OnlyIn, Next, Consumed, Issue, Arrive;
    TrafficOf(s, st);
    EncodedOf(s, st);
    ArriveOther(s.traffic, s.phase.points, 0, if st.AckStep? then st.id else 0);
  }

  lemma SendCarries(s: State, result: int)
    requires s.phase.Peeked? && OnlyIn(s.traffic, s.phase.points, 0) && Enabled(s, Send(result))
    requires s.phase.points.len > 0 && s.phase.points.from + s.phase.points.len <= s.encoded
    ensures var n := Next(s, Send(result));
      && Past(n, s.phase.points)
      && (result == 0 ==> Delivered(n.traffic, s.phase.points))
      && (result != 0 ==> OnlyIn(n.traffic, s.phase.points, if result > 0 then result else 0))
  {
    assert HasPoints(WindowMsg(s.phase), s.phase.points);
    if result == 0 {
      assert WindowMsg(s.phase) in Next(s, Send(result)).traffic.delivered;
    }
  }

  /**
    From power-on, with no hypothesis: a round encodes data points, sends its message with some result, and anything
    follows. The points are known to have arrived exactly when the message was sent with synchronous success, or
    under an id for which a success event comes before the next reset. All other rounds lose them: those refused by
    the transport, those that fail, and those never answered.
   */
  lemma PointsArriveExactly(capacity: nat, first: seq<Step>, nonCritical: nat, wait: seq<Step>, result: int,
                            more: seq<Step>)
    requires nonCritical > 0 && RunOk(Fresh(capacity), first) && NotSentYet(wait)
    requires var s := After(Fresh(capacity), first);
      s.phase.AtData? && RunOk(Peek(s, nonCritical), wait)
    requires var q := After(Peek(After(Fresh(capacity), first), nonCritical), wait);
      Enabled(q, Send(result)) && RunOk(Next(q, Send(result)), more)
    ensures var s := After(Fresh(capacity), first);
      var n := After(Next(After(Peek(s, nonCritical), wait), Send(result)), more);
      Delivered(n.traffic, Span(s.encoded, nonCritical)) <==> result == 0 || (result > 0 && Answered(more, result))
  {
    hide RunOk, After, Next, Enabled, Numbered, OnlyIn, Delivered, Peek, Answered, Past;
    FreshNumbered(capacity);
    RunNumbered(Fresh(capacity), first);
    var s := After(Fresh(capacity), first);
    ReadIsNew(s, nonCritical);
    var p := Peek(s, nonCritical);
    WaitKeepsNone(p, wait);
    var q := After(p, wait);
    SendCarries(q, result);
    var r := Next(q, Send(result));
    if result == 0 {
      RunDelivered(r, more, p.phase.points);
    } else {
      FateOfCarried(r, more, p.phase.points, if result > 0 then result else 0);
    }
  }

  lemma FreshNumbered(capacity: nat)
    ensures Numbered(Fresh(capacity))
  {
  }

  /** A reset between the read and the send loses them too. */
  lemma ResetLosesPoints(capacity: nat, first: seq<Step>, nonCritical: nat, wait: seq<Step>, crash: bool,
                         more: seq<Step>)
    requires nonCritical > 0 && RunOk(Fresh(capacity), first) && NotSentYet(wait)
    requires var s := After(Fresh(capacity), first);
      s.phase.AtData? && RunOk(Peek(s, nonCritical), wait)
    requires var q := After(Peek(After(Fresh(capacity), first), nonCritical), wait);
      RunOk(Next(q, Reset(crash)), more)
    ensures var s := After(Fresh(capacity), first);
      var n := After(Next(After(Peek(s, nonCritical), wait), Reset(crash)), more);
      !Delivered(n.traffic, Span(s.encoded, nonCritical))
  {
    hide RunOk, After, Numbered, OnlyIn, Delivered, Peek, Forget;
    FreshNumbered(capacity);
    RunNumbered(Fresh(capacity), first);
    var s := After(Fresh(capacity), first);
    ReadIsNew(s, nonCritical);
    var p := Peek(s, nonCritical);
    WaitKeepsNone(p, wait);
    ResetStep(After(p, wait), crash, p.phase.points, 0);
    FateOfCarried(Next(After(p, wait), Reset(crash)), more, p.phase.points, 0);
  }
}
