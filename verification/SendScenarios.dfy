/**
  Particular runs of the send protocol: one for each hypothesis of safety that loses bytes without it, and
  undisturbed rounds that drain the queue.
 */
module SendScenarios {
  import opened Bytes
  import opened Framing
  import opened Consumption
  import opened LogEncoder
  import opened SendProtocol
  import opened SendRuns

  /** A run may be given by listing the states it goes through. */
  lemma {:induction false} RunAlong(steps: seq<Step>, states: seq<State>)
    requires |states| == |steps| + 1
    requires forall i :: 0 <= i < |steps| ==> Enabled(states[i], steps[i]) && Next(states[i], steps[i]) == states[i + 1]
    ensures RunOk(states[0], steps) && After(states[0], steps) == states[|steps|]
    decreases |steps|
  {
    if steps != [] {
      RunAlong(steps[1..], states[1..]);
    }
  }

  lemma {:induction false} RunThen(s: State, a: seq<Step>, b: seq<Step>)
    requires RunOk(s, a) && RunOk(After(s, a), b)
    ensures RunOk(s, a + b) && After(s, a + b) == After(After(s, a), b)
    decreases |a|
  {
    if a == [] {
      assert a + b == b;
    } else {
      assert (a + b)[1..] == a[1..] + b;
      RunThen(Next(s, a[0]), a[1..], b);
    }
  }

  // ---- a losing run ----

  const R := 1 + LOG_SIZE

  /** No data points in a message. */
  const NONE := Span(0, 0)

  /** `n` zero bytes; records of zeros all have index 0. */
  function Z(n: nat): seq<byte> {
    seq(n, _ => 0)
  }

  /** A round whose message goes unanswered until the timeout. */
  function FirstRound(): seq<Step> {
    [WriteStep(Z(R)), TickStep(true), Meta(false, 0), SendBoot(1), RegisterBoot, PeekStep(0), Send(2), FinishSend,
     TimeoutStep]
  }

  /** The next round; the late answer to the first message comes after the peek. */
  function LateAnswer(): seq<Step> {
    [WriteStep(Z(R)), TickStep(true), Meta(false, 0), SendBoot(3), RegisterBoot, PeekStep(0), AckStep(2)]
  }

  /** Two more records are logged, then the window peeked before is sent and answered. */
  function StaleSend(): seq<Step> {
    [WriteStep(Z(R)), WriteStep(Z(R)), Send(4), FinishSend, AckStep(4)]
  }

  lemma ZeroWindow(n: nat)
    ensures n == R ==> Consumed(Z(n)) == n
    ensures n == 2 * R ==> Consumed(Z(n)) == n
  {
    assert Z(2 * R)[R..] == Z(R) && Z(R)[R..] == [] && Z(R)[..Min(READ_BUF, R)] == Z(R);
    assert Z(2 * R)[..Min(READ_BUF, 2 * R)] == Z(2 * R);
    assert ConsumedBytes([], 0) == 0;
    assert ConsumedBytes(Z(R), 0) == R;
  }

  function AfterFirst(capacity: nat): State {
    State(Ledger(Z(R), capacity, Z(R), 0), Traffic(map[1 := BootMsg(0), 2 := DataMsg(0, Z(R), NONE)], {1, 2}, {}), Idle,
          2, R, false, false, false, -1, false, 0, true, 0, 0, 0)
  }

  lemma FirstRoundRuns(capacity: nat)
    requires capacity >= R
    ensures RunOk(Fresh(capacity), FirstRound()) && After(Fresh(capacity), FirstRound()) == AfterFirst(capacity)
  {
    hide Z, Consumed;
    ZeroWindow(R);
    ZeroLength();
    var s0 := Fresh(capacity);
    var s1 := s0.(queue := Ledger(Z(R), capacity, Z(R), 0));
    assert [] + Z(R) == Z(R);
    var s2 := s1.(inProgress := true, phase := AtMeta);
    var s3 := s2.(phase := AtBoot);
    var s4 := s3.(traffic := Traffic(map[1 := BootMsg(0)], {1}, {}), phase := BootSent(1));
    var s5 := s4.(bootMsgId := 1, phase := AtData);
    var s6 := s5.(phase := Peeked(0, Z(R), NONE));
    var s7 := s6.(traffic := AfterFirst(capacity).traffic, phase := DataSent(0, Z(R), NONE, 2));
    var s8 := s7.(dataMsgId := 2, dataMsgLen := R, timerActive := true, phase := Idle);
    RunAlong(FirstRound(), [s0, s1, s2, s3, s4, s5, s6, s7, s8, AfterFirst(capacity)]);
  }

  function Lost(capacity: nat): State {
    State(Ledger(Z(R), capacity, Z(4 * R), 3 * R),
          Traffic(map[1 := BootMsg(0), 2 := DataMsg(0, Z(R), NONE), 3 := BootMsg(0), 4 := DataMsg(0, Z(2 * R), NONE)],
                  {1, 3},
                  {DataMsg(0, Z(R), NONE), DataMsg(0, Z(2 * R), NONE)}),
          Idle, 4, 2 * R, false, false, true, 3, false, 0, true, 0, 0, 0)
  }

  function AfterLateAnswer(capacity: nat): State {
    State(Ledger(Z(R), capacity, Z(2 * R), R),
          Traffic(map[1 := BootMsg(0), 2 := DataMsg(0, Z(R), NONE), 3 := BootMsg(0)], {1, 3}, {DataMsg(0, Z(R), NONE)}),
          Peeked(0, Z(2 * R), NONE), 2, R, false, false, true, 3, false, 0, true, 0, 0, 0)
  }

  lemma ZeroSums()
    ensures Z(R) + Z(R) == Z(2 * R) && Z(2 * R) + Z(R) == Z(3 * R) && Z(3 * R) + Z(R) == Z(4 * R)
    ensures Z(2 * R)[R..] == Z(R) && Z(3 * R)[2 * R..] == Z(R) && Z(2 * R)[..2 * R] == Z(2 * R)
  {
  }

  lemma LateAnswerRuns(capacity: nat)
    requires capacity >= 3 * R
    ensures RunOk(AfterFirst(capacity), LateAnswer())
    ensures After(AfterFirst(capacity), LateAnswer()) == AfterLateAnswer(capacity)
  {
    hide Z, Consumed;
    ZeroWindow(2 * R);
    ZeroSums();
    ZeroLength();
    var s0 := AfterFirst(capacity);
    var s1 := s0.(queue := Ledger(Z(2 * R), capacity, Z(2 * R), 0));
    var s2 := s1.(inProgress := true, phase := AtMeta);
    var s3 := s2.(phase := AtBoot);
    var t3 := AfterLateAnswer(capacity).traffic.sent;
    var s4 := s3.(traffic := Traffic(t3, {1, 2, 3}, {}), phase := BootSent(3));
    var s5 := s4.(bootMsgId := 3, phase := AtData);
    var s6 := s5.(phase := Peeked(0, Z(2 * R), NONE));
    assert Next(s0, WriteStep(Z(R))) == s1 && Next(s3, SendBoot(3)) == s4 && Next(s5, PeekStep(0)) == s6;
    assert Next(s6, AckStep(2)) == AfterLateAnswer(capacity);
    RunAlong(LateAnswer(), [s0, s1, s2, s3, s4, s5, s6, AfterLateAnswer(capacity)]);
  }

  lemma ZeroLength()
    ensures |Z(R)| == R && |Z(2 * R)| == 2 * R && |Z(3 * R)| == 3 * R
  {
  }

  lemma StaleSendRuns(capacity: nat)
    requires capacity >= 3 * R
    ensures RunOk(AfterLateAnswer(capacity), StaleSend())
    ensures After(AfterLateAnswer(capacity), StaleSend()) == Lost(capacity)
  {
    hide Z;
    ZeroSums();
    ZeroLength();
    var s0 := AfterLateAnswer(capacity);
    var s1 := s0.(queue := Ledger(Z(2 * R), capacity, Z(3 * R), R));
    var s2 := s1.(queue := Ledger(Z(3 * R), capacity, Z(4 * R), R));
    var s3 := s2.(traffic := Traffic(Lost(capacity).traffic.sent, {1, 3, 4}, {DataMsg(0, Z(R), NONE)}),
                  phase := DataSent(0, Z(2 * R), NONE, 4));
    var s4 := s3.(dataMsgId := 4, dataMsgLen := 2 * R, timerActive := true, phase := Idle);
    assert Next(s0, WriteStep(Z(R))) == s1 && Next(s1, WriteStep(Z(R))) == s2;
    assert Next(s4, AckStep(4)) == Lost(capacity);
    RunAlong(StaleSend(), [s0, s1, s2, s3, s4, Lost(capacity)]);
  }

  lemma LostNeverSent(capacity: nat, p: nat)
    requires 2 * R <= p
    ensures NeverSent(Lost(capacity).traffic, p)
  {
    hide Z;
    ZeroLength();
  }

  predicate NeverSent(t: Traffic, p: nat) {
    (forall id :: id in t.sent ==> !Covers(t.sent[id], p)) && (forall m :: m in t.delivered ==> !Covers(m, p))
  }

  /**
    Without the second hypothesis a record is lost: all answers are asynchronous, ids are fresh and answered
    once, yet bytes are released that no message ever carried.
   */
  lemma LateAnswerLosesBytes(capacity: nat)
    requires capacity >= 3 * R
    ensures var steps := FirstRound() + LateAnswer() + StaleSend();
      && RunOk(Fresh(capacity), steps)
      && (forall i :: 0 <= i < |steps| && steps[i].Send? ==> steps[i].result > 0)
      && var n := After(Fresh(capacity), steps);
         n.queue.released == 3 * R && forall p :: 2 * R <= p < 3 * R ==> NeverSent(n.traffic, p)
  {
    hide Z, RunOk, After, NeverSent;
    FirstRoundRuns(capacity);
    LateAnswerRuns(capacity);
    RunThen(Fresh(capacity), FirstRound(), LateAnswer());
    StaleSendRuns(capacity);
    RunThen(Fresh(capacity), FirstRound() + LateAnswer(), StaleSend());
    forall p | 2 * R <= p < 3 * R ensures NeverSent(Lost(capacity).traffic, p) {
      LostNeverSent(capacity, p);
    }
  }

  /** The next round succeeds at once. */
  function SynchronousRound(): seq<Step> {
    [WriteStep(Z(R)), TickStep(true), Meta(false, 0), SendBoot(3), RegisterBoot, PeekStep(0), Send(0), FinishSend]
  }

  /** Then a record is logged, and then the first message is answered. */
  function SecondRelease(): seq<Step> {
    [WriteStep(Z(R)), AckStep(2)]
  }

  function AfterSynchronous(capacity: nat): State {
    State(Ledger([], capacity, Z(2 * R), 2 * R),
          Traffic(map[1 := BootMsg(0), 2 := DataMsg(0, Z(R), NONE), 3 := BootMsg(0)], {1, 2, 3},
                  {DataMsg(0, Z(2 * R), NONE)}),
          Idle, 2, R, false, false, true, 3, false, 0, true, 0, 0, 0)
  }

  function LostByMixing(capacity: nat): State {
    State(Ledger([], capacity, Z(3 * R), 3 * R),
          Traffic(map[1 := BootMsg(0), 2 := DataMsg(0, Z(R), NONE), 3 := BootMsg(0)], {1, 3},
                  {DataMsg(0, Z(2 * R), NONE), DataMsg(0, Z(R), NONE)}),
          Idle, 2, R, false, false, true, 3, false, 0, true, 0, 0, 0)
  }

  lemma SynchronousRuns(capacity: nat)
    requires capacity >= 3 * R
    ensures RunOk(AfterFirst(capacity), SynchronousRound())
    ensures After(AfterFirst(capacity), SynchronousRound()) == AfterSynchronous(capacity)
  {
    hide Z, Consumed;
    ZeroWindow(2 * R);
    ZeroSums();
    ZeroLength();
    var s0 := AfterFirst(capacity);
    var s1 := s0.(queue := Ledger(Z(2 * R), capacity, Z(2 * R), 0));
    var s2 := s1.(inProgress := true, phase := AtMeta);
    var s3 := s2.(phase := AtBoot);
    var sent := AfterSynchronous(capacity).traffic.sent;
    var s4 := s3.(traffic := Traffic(sent, {1, 2, 3}, {}), phase := BootSent(3));
    var s5 := s4.(bootMsgId := 3, phase := AtData);
    var s6 := s5.(phase := Peeked(0, Z(2 * R), NONE));
    var s7 := s6.(traffic := Traffic(sent, {1, 2, 3}, {DataMsg(0, Z(2 * R), NONE)}),
                  phase := DataSent(0, Z(2 * R), NONE, 0));
    assert Next(s0, WriteStep(Z(R))) == s1 && Next(s3, SendBoot(3)) == s4 && Next(s5, PeekStep(0)) == s6;
    assert Next(s7, FinishSend) == AfterSynchronous(capacity);
    RunAlong(SynchronousRound(), [s0, s1, s2, s3, s4, s5, s6, s7, AfterSynchronous(capacity)]);
  }

  lemma SecondReleaseRuns(capacity: nat)
    requires capacity >= 3 * R
    ensures RunOk(AfterSynchronous(capacity), SecondRelease())
    ensures After(AfterSynchronous(capacity), SecondRelease()) == LostByMixing(capacity)
  {
    ZeroSums();
    ZeroLength();
    var s0 := AfterSynchronous(capacity);
    var s1 := s0.(queue := Ledger(Z(R), capacity, Z(3 * R), 2 * R));
    assert [] + Z(R) == Z(R);
    assert Next(s0, WriteStep(Z(R))) == s1 && Next(s1, AckStep(2)) == LostByMixing(capacity);
    RunAlong(SecondRelease(), [s0, s1, LostByMixing(capacity)]);
  }

  lemma MixedNeverSent(capacity: nat, p: nat)
    requires 2 * R <= p
    ensures NeverSent(LostByMixing(capacity).traffic, p)
  {
    hide Z;
    ZeroLength();
  }

  /** Without the first hypothesis, too: a synchronous success and an asynchronous answer release twice. */
  lemma MixedModesLoseBytes(capacity: nat)
    requires capacity >= 3 * R
    ensures var steps := FirstRound() + SynchronousRound() + SecondRelease();
      && RunOk(Fresh(capacity), steps)
      && var n := After(Fresh(capacity), steps);
         n.queue.released == 3 * R && forall p :: 2 * R <= p < 3 * R ==> NeverSent(n.traffic, p)
  {
    hide Z, RunOk, After, NeverSent;
    FirstRoundRuns(capacity);
    SynchronousRuns(capacity);
    RunThen(Fresh(capacity), FirstRound(), SynchronousRound());
    SecondReleaseRuns(capacity);
    RunThen(Fresh(capacity), FirstRound() + SynchronousRound(), SecondRelease());
    forall p | 2 * R <= p < 3 * R ensures NeverSent(LostByMixing(capacity).traffic, p) {
      MixedNeverSent(capacity, p);
    }
  }

  // ---- a discard while an answer is outstanding ----

  function DiscardThenAnswer(): seq<Step> {
    [DiscardStep, WriteStep(Z(R)), AckStep(2)]
  }

  function LostByDiscard(capacity: nat): State {
    State(Ledger([], capacity, Z(2 * R), 2 * R),
          Traffic(map[1 := BootMsg(0), 2 := DataMsg(0, Z(R), NONE)], {1}, {DataMsg(0, Z(R), NONE)}),
          Idle, 2, R, false, false, true, -1, false, 0, true, 0, 0, 0)
  }

  lemma DiscardRuns(capacity: nat)
    requires capacity >= R
    ensures RunOk(AfterFirst(capacity), DiscardThenAnswer())
    ensures After(AfterFirst(capacity), DiscardThenAnswer()) == LostByDiscard(capacity)
  {
    ZeroSums();
    ZeroLength();
    var s0 := AfterFirst(capacity);
    var s1 := s0.(queue := Ledger([], capacity, Z(R), R));
    var s2 := s1.(queue := Ledger(Z(R), capacity, Z(2 * R), R));
    assert [] + Z(R) == Z(R) && Z(R)[R..] == [];
    assert Next(s0, DiscardStep) == s1 && Next(s1, WriteStep(Z(R))) == s2;
    assert Next(s2, AckStep(2)) == LostByDiscard(capacity);
    RunAlong(DiscardThenAnswer(), [s0, s1, s2, LostByDiscard(capacity)]);
  }

  lemma DiscardNeverSent(capacity: nat, p: nat)
    requires R <= p
    ensures NeverSent(LostByDiscard(capacity).traffic, p)
  {
    hide Z;
    ZeroLength();
  }

  /** Without the third hypothesis: the data message id outlives a discard, and its answer releases a newer record. */
  lemma DiscardLosesBytes(capacity: nat)
    requires capacity >= R
    ensures var steps := FirstRound() + DiscardThenAnswer();
      && RunOk(Fresh(capacity), steps)
      && var n := After(Fresh(capacity), steps);
         n.queue.released == 2 * R && forall p :: R <= p < 2 * R ==> NeverSent(n.traffic, p)
  {
    hide Z, RunOk, After, NeverSent;
    FirstRoundRuns(capacity);
    DiscardRuns(capacity);
    RunThen(Fresh(capacity), FirstRound(), DiscardThenAnswer());
    forall p | R <= p < 2 * R ensures NeverSent(LostByDiscard(capacity).traffic, p) {
      DiscardNeverSent(capacity, p);
    }
  }

  // ---- draining ----

  /** No round is running, the boot message is settled, and the queue holds whole records. */
  predicate Quiet(s: State, rs: seq<Record>) {
    && s.phase.Idle? && !s.inProgress && s.bootMsgId != -1
    && AllOfSize(rs, LOG_SIZE) && s.queue.bytes == FlattenLogs(rs)
  }

  function RoundSteps(id: int): seq<Step> {
    [TickStep(true), Meta(false, 0), SkipBoot, PeekStep(0), Send(id), FinishSend, AckStep(id)]
  }

  /** Records one round gets rid of: those of the oldest boot that fit the read buffer. */
  function Taken(rs: seq<Record>): nat
    requires rs != []
  {
    Run(rs, 0, rs[0].meta, Min(READ_BUF, Total(rs, 0)))
  }

  lemma TakenFromHead(rs: seq<Record>)
    requires rs != [] && AllOfSize(rs, LOG_SIZE)
    ensures |FlattenLogs(rs)| == Total(rs, 0) && FlattenLogs(rs) != [] && FlattenLogs(rs)[0] == rs[0].meta
    ensures 0 < Taken(rs) <= |rs| && |FlattenLogs(rs[..Taken(rs)])| == Total(rs[..Taken(rs)], 0)
  {
  }

  lemma TakenIsConsumed(rs: seq<Record>)
    requires rs != [] && AllOfSize(rs, LOG_SIZE)
    ensures Consumed(FlattenLogs(rs)) == Total(rs[..Taken(rs)], 0)
  {
    hide ConsumedBytes, LogFrame, Run, FlattenLogs, Total;
    TakenFromHead(rs);
    ConsumedIsRun(rs, Min(READ_BUF, Total(rs, 0)), rs[0].meta);
  }

  lemma ConsumedIsTaken(rs: seq<Record>)
    requires rs != [] && AllOfSize(rs, LOG_SIZE)
    ensures var q := FlattenLogs(rs); var k := Taken(rs);
      && Consumed(q) == Total(rs[..k], 0) && 0 < k <= |rs|
      && q[..Consumed(q)] == FlattenLogs(rs[..k]) && q[Consumed(q)..] == FlattenLogs(rs[k..])
  {
    hide Consumed, ConsumedBytes, LogFrame, Run, FlattenLogs, Total, Taken;
    var k := Taken(rs);
    TakenFromHead(rs);
    TakenIsConsumed(rs);
    assert rs == rs[..k] + rs[k..];
    FlattenLogsConcat(rs[..k], rs[k..]);
  }

  /** One undisturbed round: its message carries the taken records and its answer releases exactly those. */
  lemma RoundReleases(s: State, rs: seq<Record>, id: int)
    requires Quiet(s, rs) && rs != [] && id > 0 && id !in s.traffic.sent
    ensures RunOk(s, RoundSteps(id))
    ensures var n := After(s, RoundSteps(id));
      var m := DataMsg(s.queue.released, FlattenLogs(rs[..Taken(rs)]), Span(s.encoded, 0));
      && Quiet(n, rs[Taken(rs)..]) && n.traffic.sent == s.traffic.sent[id := m] && m in n.traffic.delivered
      && n.queue.released == s.queue.released + |m.body|
  {
    hide Consumed, Taken, FlattenLogs, ConsumedBytes, RunOk, After, Release, Arrive, Total;
    ConsumedIsTaken(rs);
    TotalTake(rs, 0, Taken(rs) - 1);
    var c := Consumed(s.queue.bytes);
    var body := s.queue.bytes[..c];
    RoundPeeks(s);
    var p := s.(inProgress := true, phase := Peeked(s.queue.released, body, Span(s.encoded, 0)));
    RoundAnswers(p, body, id);
    assert RoundSteps(id) == PeekSteps() + AnswerSteps(id);
    RunThen(s, PeekSteps(), AnswerSteps(id));
    AnswerReleases(s, body, id);
  }

  function PeekSteps(): seq<Step> {
    [TickStep(true), Meta(false, 0), SkipBoot, PeekStep(0)]
  }

  function AnswerSteps(id: int): seq<Step> {
    [Send(id), FinishSend, AckStep(id)]
  }

  lemma RoundPeeks(s: State)
    requires s.phase.Idle? && !s.inProgress && s.bootMsgId != -1 && Consumed(s.queue.bytes) > 0
    ensures RunOk(s, PeekSteps())
    ensures After(s, PeekSteps())
         == s.(inProgress := true,
               phase := Peeked(s.queue.released, s.queue.bytes[..Consumed(s.queue.bytes)], Span(s.encoded, 0)))
  {
    hide Consumed;
    var s1 := s.(inProgress := true, phase := AtMeta);
    var s4 := s1.(phase := Peeked(s.queue.released, s.queue.bytes[..Consumed(s.queue.bytes)], Span(s.encoded, 0)));
    RunAlong(PeekSteps(), [s, s1, s1.(phase := AtBoot), s1.(phase := AtData), s4]);
  }

  /** The state after the message with id `id` was sent, registered and answered. */
  function Answered(s: State, body: seq<byte>, id: int): State {
    s.(traffic := Arrive(Issue(s.traffic, id, DataMsg(s.queue.released, body, Span(s.encoded, 0))), id),
       queue := Release(s.queue, |body|),
       dataMsgId := id, dataMsgLen := |body|, dataSent := true, inProgress := false, timerActive := false,
       phase := Idle)
  }

  lemma RoundAnswers(s: State, body: seq<byte>, id: int)
    requires s.phase == Peeked(s.queue.released, body, Span(s.encoded, 0)) && id > 0 && id !in s.traffic.sent
    ensures RunOk(s, AnswerSteps(id)) && After(s, AnswerSteps(id)) == Answered(s, body, id)
  {
    hide Release, Arrive;
    var m := DataMsg(s.queue.released, body, Span(s.encoded, 0));
    var s1 := s.(traffic := Issue(s.traffic, id, m), phase := DataSent(m.start, body, m.points, id));
    var s2 := s1.(dataMsgId := id, dataMsgLen := |body|, timerActive := true, phase := Idle);
    RunAlong(AnswerSteps(id), [s, s1, s2, Answered(s, body, id)]);
  }

  lemma AnswerReleases(s: State, body: seq<byte>, id: int)
    requires id > 0 && body <= s.queue.bytes
    ensures var n := Answered(s, body, id);
      var m := DataMsg(s.queue.released, body, Span(s.encoded, 0));
      && n.traffic.sent == s.traffic.sent[id := m] && m in n.traffic.delivered
      && n.queue.bytes == s.queue.bytes[|body|..] && n.queue.released == s.queue.released + |body|
  {
  }

  /** As many rounds as it takes, each under a new id. */
  function DrainSteps(rs: seq<Record>, id: int): seq<Step>
    decreases |rs|
  {
    if rs == [] || Taken(rs) == 0 then [] else RoundSteps(id) + DrainSteps(rs[Taken(rs)..], id + 1)
  }

  /** Undisturbed rounds empty the queue, in at most one round a record. */
  lemma {:induction false} RoundsDrain(s: State, rs: seq<Record>, id: int)
    requires Quiet(s, rs) && id > 0 && forall i :: i in s.traffic.sent ==> i < id
    ensures |DrainSteps(rs, id)| <= |RoundSteps(id)| * |rs|
    ensures RunOk(s, DrainSteps(rs, id))
    ensures var n := After(s, DrainSteps(rs, id));
      n.queue.bytes == [] && n.queue.released == s.queue.released + |s.queue.bytes|
    decreases |rs|
  {
    hide Taken;
    if rs != [] {
      RoundReleases(s, rs, id);
      ConsumedIsTaken(rs);
      var n := After(s, RoundSteps(id));
      RoundsDrain(n, rs[Taken(rs)..], id + 1);
      RunThen(s, RoundSteps(id), DrainSteps(rs[Taken(rs)..], id + 1));
    }
  }
}
