/**
  How a round goes on: exactly which steps end it, that no other round starts before one of them, and that the
  timeout ends the wait for an answer, except after the session was disabled and enabled in the middle of it.
 */
module RoundProgress {
  import opened SendProtocol
  import opened SendRuns
  import opened CoreDump

  // ---- what ends a round ----

  /** A success event for the data message, any failure, the timeout, a lost connection, a restart. */
  predicate Interrupts(dataMsgId: int, st: Step) {
    || (st.AckStep? && st.id == dataMsgId && dataMsgId != 0)
    || st.FailStep? || st.TimeoutStep? || st == TickStep(false) || st.Reset?
  }

  /** The round itself has come to its end: there was nothing to send, or no answer is to be waited for. */
  predicate Concludes(s: State, st: Step) {
    || (st.PeekStep? && Consumed(s.queue.bytes) == 0 && st.nonCriticalConsumed == 0)
    || (st.FinishSend? && s.phase.DataSent? && s.phase.result <= 0)
  }

  /** The mark of a round under way, before and after any step. */
  lemma MarkExactly(s: State, st: Step)
    requires Enabled(s, st)
    ensures Next(s, st).inProgress <==>
      st == TickStep(true) || (s.inProgress && !Interrupts(s.dataMsgId, st) && !Concludes(s, st))
  {
    hide Consumed, Release, Append, Issue, Arrive, Forget, Ack;
    AckFields(s, if st.AckStep? then st.id else 0);
  }

  /** A round starts exactly when the periodic task finds the connection up and no round under way. */
  lemma StartsExactly(s: State, st: Step)
    requires Enabled(s, st) && s.phase.Idle?
    ensures !Next(s, st).phase.Idle? <==> st == TickStep(true) && !s.inProgress
  {
    hide Next;
    PhaseOf(s, st);
  }

  /** A round that waits for its answer goes on waiting exactly while nothing interrupts it. */
  lemma WaitsExactly(s: State, st: Step)
    requires Enabled(s, st) && s.phase.Idle? && s.inProgress
    ensures Next(s, st).phase.Idle?
    ensures Next(s, st).inProgress <==> !Interrupts(s.dataMsgId, st)
    ensures Next(s, st).inProgress ==> Next(s, st).dataMsgId == s.dataMsgId
  {
    hide Next;
    StartsExactly(s, st);
    MarkExactly(s, st);
    DataMsgIdOf(s, st);
  }

  /** The registered id changes only at the registration of another message and at a restart. */
  lemma DataMsgIdOf(s: State, st: Step)
    requires Enabled(s, st)
    ensures Next(s, st).dataMsgId ==
      if st.FinishSend? && s.phase.result > 0 then s.phase.result else if st.Reset? then 0 else s.dataMsgId
  {
    hide Consumed, Release, Append, Issue, Arrive, Forget, Ack, MetaStep, Peek;
    SameDataMsgId(s);
    AckFields(s, if st.AckStep? then st.id else 0);
  }

  lemma SameDataMsgId(s: State)
    ensures forall send, result :: MetaStep(s, send, result).dataMsgId == s.dataMsgId
    ensures forall n :: Peek(s, n).dataMsgId == s.dataMsgId
  {
    hide Consumed, Release, Issue, Arrive;
  }

  /** Registration leaves the round waiting, unless it has been interrupted while its message was on the way. */
  lemma RegistrationWaits(s: State)
    requires s.phase.DataSent? && s.phase.result > 0
    ensures var n := Next(s, FinishSend);
      n.phase.Idle? && n.dataMsgId == s.phase.result && (n.inProgress <==> s.inProgress)
  {
  }

  /** Some step before number `n` interrupts the round of `id`. */
  predicate InterruptedBefore(steps: seq<Step>, n: nat, id: int)
    requires n <= |steps|
  {
    exists i :: 0 <= i < n && Interrupts(id, steps[i])
  }

  /**
    From registration on, in every run: until something interrupts the round, it is still waiting and no step of
    another round happens. So no other message of any kind is sent before.
   */
  lemma {:induction false} NoSecondRound(s: State, steps: seq<Step>)
    requires s.phase.Idle? && s.inProgress && RunOk(s, steps)
    ensures !InterruptedBefore(steps, |steps|, s.dataMsgId) ==>
      After(s, steps).phase.Idle? && After(s, steps).inProgress && After(s, steps).dataMsgId == s.dataMsgId
    ensures forall i :: 0 <= i < |steps| && IsRoundStep(steps[i]) ==> InterruptedBefore(steps, i, s.dataMsgId)
    decreases |steps|
  {
    hide Next, Interrupts;
    if steps != [] {
      var rest := steps[1..];
      WaitsExactly(s, steps[0]);
      OnlyWithinRound(s, steps[0]);
      if Interrupts(s.dataMsgId, steps[0]) {
        forall i | 0 < i <= |steps| ensures InterruptedBefore(steps, i, s.dataMsgId) {
          assert Interrupts(s.dataMsgId, steps[0]);
        }
      } else {
        NoSecondRound(Next(s, steps[0]), rest);
        forall i | 0 < i <= |steps| && InterruptedBefore(rest, i - 1, s.dataMsgId)
          ensures InterruptedBefore(steps, i, s.dataMsgId)
        {
          var j :| 0 <= j < i - 1 && Interrupts(s.dataMsgId, rest[j]);
          assert steps[j + 1] == rest[j];
        }
        forall i | 0 <= i < |steps| && IsRoundStep(steps[i]) ensures InterruptedBefore(steps, i, s.dataMsgId) {
          assert i > 0 && rest[i - 1] == steps[i];
        }
        if InterruptedBefore(rest, |rest|, s.dataMsgId) {
          assert InterruptedBefore(steps, |steps|, s.dataMsgId);
        }
      }
    }
  }

  /** A step that only the task inside a round makes. */
  predicate IsRoundStep(st: Step) {
    st.Meta? || st.SendBoot? || st.SkipBoot? || st.RegisterBoot? || st.PeekStep? || st.Send? || st.FinishSend?
  }

  lemma OnlyWithinRound(s: State, st: Step)
    requires Enabled(s, st) && s.phase.Idle?
    ensures !IsRoundStep(st)
  {
  }

  /** A round that was interrupted before its registration waits for nothing: the next tick starts another one. */
  lemma InterruptedRoundOverlaps(s: State, other: int)
    requires s.phase.DataSent? && s.phase.result > 0 && s.phase.result in s.traffic.pending
    requires other in s.traffic.pending && other != s.phase.result
    ensures var steps := [FailStep(other), FinishSend, TickStep(true)];
      && RunOk(s, steps)
      && var n := After(s, steps); n.phase.AtMeta? && n.dataMsgId in n.traffic.pending && n.dataMsgId == s.phase.result
  {
    var steps := [FailStep(other), FinishSend, TickStep(true)];
    var s1 := Fail(s, other);
    var s2 := Finish(s1);
    var s3 := Tick(s2, true);
    assert RunOk(s3, []) && After(s3, []) == s3;
    assert steps[1..][1..][1..] == [] && steps[1..][1..][0] == TickStep(true) && steps[1..][0] == FinishSend;
    assert Next(s, steps[0]) == s1 && Next(s1, FinishSend) == s2 && Next(s2, TickStep(true)) == s3;
    assert RunOk(s2, steps[1..][1..]) && After(s2, steps[1..][1..]) == s3;
    assert RunOk(s1, steps[1..]) && After(s1, steps[1..]) == s3;
  }

  // ---- what counts as data sent, and when metadata and boot message are due ----

  /** The flag that the report period looks at: data or metadata acknowledged, or data sent with synchronous success. */
  lemma DataSentExactly(s: State, st: Step)
    requires Enabled(s, st) && !st.Reset?
    ensures Next(s, st).dataSent <==>
      || s.dataSent
      || (st.AckStep? && st.id != 0 && (st.id == s.dataMsgId || (s.metaPending && st.id == s.metaMsgId)))
      || (st.FinishSend? && s.phase.result == 0)
  {
    hide Consumed, Release, Append, Issue, Arrive, Forget, Ack;
    AckFields(s, if st.AckStep? then st.id else 0);
  }

  /** The timeout is armed exactly from a registration to the next answer for it, failure, timeout or new start. */
  lemma TimerExactly(s: State, st: Step)
    requires Enabled(s, st)
    ensures Next(s, st).timerActive <==>
      || (st.FinishSend? && s.phase.result > 0)
      || (s.timerActive && !st.FailStep? && !st.TimeoutStep? && !st.Reset? && !st.ReenableStep?
          && !(st.AckStep? && st.id != 0 && st.id == s.dataMsgId))
  {
    hide Consumed, Release, Append, Issue, Arrive, Forget, Ack;
    AckFields(s, if st.AckStep? then st.id else 0);
  }

  /** Metadata waits for its answer exactly from its registration to that answer; failures do not end the wait. */
  lemma MetaPendingExactly(s: State, st: Step)
    requires Enabled(s, st)
    ensures Next(s, st).metaPending <==>
      || (st.Meta? && st.send && st.result > 0)
      || (s.metaPending && !st.Reset?
          && !(st.AckStep? && st.id != 0 && st.id == s.metaMsgId && st.id != s.dataMsgId))
  {
    hide Consumed, Release, Append, Issue, Arrive, Forget, Ack;
    AckFields(s, if st.AckStep? then st.id else 0);
  }

  /** The boot message is out or settled, and not on its way. */
  predicate OutOrSettled(s: State) {
    s.bootMsgId >= 0 && !s.phase.BootSent?
  }

  /** What makes a boot message due again: its failure or the timeout while it is out, a restart, an enabling. */
  predicate MakesDue(s: State, st: Step) {
    || (s.bootMsgId > 0 && (st.TimeoutStep? || (st.FailStep? && st.id == s.bootMsgId)))
    || st.Reset? || st.ReenableStep?
  }

  /** Exactly that, and nothing sends it before. */
  lemma DueExactly(s: State, st: Step)
    requires OutOrSettled(s) && Enabled(s, st)
    ensures OutOrSettled(Next(s, st)) <==> !MakesDue(s, st)
    ensures !st.SendBoot?
  {
    hide Next;
    PhaseOf(s, st);
    BootMsgIdOf(s, st);
  }

  predicate NothingMakesDue(s: State, steps: seq<Step>)
    requires RunOk(s, steps)
    decreases |steps|
  {
    steps == [] || (!MakesDue(s, steps[0]) && NothingMakesDue(Next(s, steps[0]), steps[1..]))
  }

  /** In no run is a boot message sent again before something has made it due. */
  lemma {:induction false} BootSentOnlyWhenDue(s: State, steps: seq<Step>)
    requires OutOrSettled(s) && RunOk(s, steps) && NothingMakesDue(s, steps)
    ensures forall i :: 0 <= i < |steps| ==> !steps[i].SendBoot?
    decreases |steps|
  {
    hide OutOrSettled, MakesDue, Next, Enabled;
    if steps != [] {
      DueExactly(s, steps[0]);
      BootSentOnlyWhenDue(Next(s, steps[0]), steps[1..]);
    }
  }

  /** A boot message that counts as settled has arrived in this boot. */
  predicate SettledOk(s: State) {
    && s.bootMsgId >= -1
    && (s.bootMsgId == 0 ==> BootMsg(s.boot) in s.traffic.delivered)
    && (s.phase.BootSent? ==> s.phase.result >= -1)
    && (s.phase == BootSent(0) ==> BootMsg(s.boot) in s.traffic.delivered)
  }

  lemma StepSettled(s: State, st: Step)
    requires IdsOk(s) && SettledOk(s) && Enabled(s, st)
    ensures SettledOk(Next(s, st))
  {
    hide Next;
    PhaseOf(s, st);
    BootMsgIdOf(s, st);
    TrafficOf(s, st);
    BootsCounted(s, st);
    DeliveredGrows(s, st);
  }

  lemma {:induction false} RunSettled(s: State, steps: seq<Step>)
    requires IdsOk(s) && SettledOk(s) && RunOk(s, steps)
    ensures IdsOk(After(s, steps)) && SettledOk(After(s, steps))
    decreases |steps|
  {
    hide IdsOk, SettledOk, Next, Enabled;
    if steps != [] {
      IdsKept(s, steps[0]);
      StepSettled(s, steps[0]);
      RunSettled(Next(s, steps[0]), steps[1..]);
    }
  }

  /** In every run the boot message is settled only after it has arrived in this boot; until then it is due or out. */
  lemma SettledMeansArrived(capacity: nat, steps: seq<Step>)
    requires RunOk(Fresh(capacity), steps)
    ensures var n := After(Fresh(capacity), steps);
      n.bootMsgId >= -1 && (n.bootMsgId == 0 ==> BootMsg(n.boot) in n.traffic.delivered)
  {
    RunSettled(Fresh(capacity), steps);
  }

  /** A boot message that counts as out can still be answered. */
  predicate BootWaits(s: State) {
    && (s.bootMsgId > 0 ==> s.bootMsgId in s.traffic.pending)
    && (s.phase.BootSent? && s.phase.result > 0 ==> s.phase.result in s.traffic.pending)
  }

  /** No answer to a boot message comes before its id is stored. */
  predicate NoEarlyAnswer(s: State, st: Step) {
    s.phase.BootSent? ==> !(st.AckStep? && st.id == s.phase.result) && !(st.FailStep? && st.id == s.phase.result)
  }

  lemma StepBootWaits(s: State, st: Step)
    requires IdsOk(s) && BootWaits(s) && Enabled(s, st)
    ensures BootWaits(Next(s, st)) <==> NoEarlyAnswer(s, st)
  {
    hide Next;
    PhaseOf(s, st);
    BootMsgIdOf(s, st);
    TrafficOf(s, st);
  }

  predicate NoEarlyAnswers(s: State, steps: seq<Step>)
    requires RunOk(s, steps)
    decreases |steps|
  {
    steps == [] || (NoEarlyAnswer(s, steps[0]) && NoEarlyAnswers(Next(s, steps[0]), steps[1..]))
  }

  /**
    In every run without early answers a boot message that counts as out can still be answered: an answer, a failure,
    the timeout, a restart or an enabling will settle it or make it due again. An early answer leaves it out for good
    as far as answers go.
   */
  lemma {:induction false} BootMessageWaits(s: State, steps: seq<Step>)
    requires IdsOk(s) && BootWaits(s) && RunOk(s, steps) && NoEarlyAnswers(s, steps)
    ensures BootWaits(After(s, steps))
    decreases |steps|
  {
    hide IdsOk, BootWaits, Next, Enabled, NoEarlyAnswer;
    if steps != [] {
      IdsKept(s, steps[0]);
      StepBootWaits(s, steps[0]);
      BootMessageWaits(Next(s, steps[0]), steps[1..]);
    }
  }

  // ---- waiting ends ----

  /** Whenever no round can start, the timeout is armed. */
  predicate Armed(s: State) {
    s.phase.Idle? && s.inProgress ==> s.timerActive
  }

  /** Every step keeps it, but for one: a re-enabling keeps it exactly when no message is under way. */
  lemma StepArmed(s: State, st: Step)
    requires Armed(s) && Enabled(s, st)
    ensures Armed(Next(s, st)) <==> !(st.ReenableStep? && s.inProgress)
  {
    hide Consumed, Release, Append, Issue, Arrive, Forget;
  }

  predicate NeverReenabledInRound(s: State, steps: seq<Step>)
    requires RunOk(s, steps)
    decreases |steps|
  {
    steps == []
    || (!(steps[0].ReenableStep? && s.inProgress) && NeverReenabledInRound(Next(s, steps[0]), steps[1..]))
  }

  lemma {:induction false} RunArmed(s: State, steps: seq<Step>)
    requires Armed(s) && RunOk(s, steps) && NeverReenabledInRound(s, steps)
    ensures Armed(After(s, steps))
    decreases |steps|
  {
    hide Armed, Next, Enabled;
    if steps != [] {
      StepArmed(s, steps[0]);
      RunArmed(Next(s, steps[0]), steps[1..]);
    }
  }

  /** In every run from power-on without such a re-enabling no round can hang: the timeout will end it. */
  lemma BlockedMeansTimed(capacity: nat, steps: seq<Step>)
    requires RunOk(Fresh(capacity), steps) && NeverReenabledInRound(Fresh(capacity), steps)
    ensures var n := After(Fresh(capacity), steps);
      && (n.phase.Idle? && n.inProgress ==> n.timerActive)
      && (n.phase.Idle? ==> Tick(Timeout(n), true).phase.AtMeta?)
  {
    RunArmed(Fresh(capacity), steps);
  }

  /** No answer is to come and no timer runs, yet a round counts as under way. */
  predicate Stuck(s: State) {
    s.phase.Idle? && s.inProgress && !s.timerActive && s.traffic.pending == {}
  }

  /** Disabling and enabling while a message is under way, its answers coming meanwhile, leaves the session stuck. */
  lemma ReenableInRoundSticks(s: State)
    requires s.phase.Idle? && s.inProgress
    ensures Stuck(Reenable(s, s.traffic.pending)) && Enabled(s, ReenableStep(s.traffic.pending))
  {
  }

  /** A restart, a tick without connection, or a callback that had expired before. */
  predicate Unblocks(st: Step) {
    st.Reset? || st.TimeoutStep? || st == TickStep(false)
  }

  lemma StuckStep(s: State, st: Step)
    requires Stuck(s) && Enabled(s, st)
    ensures Stuck(Next(s, st)) <==> !Unblocks(st)
  {
    hide Consumed, Release, Append, Issue, Forget;
  }

  predicate NothingUnblocks(steps: seq<Step>) {
    forall i :: 0 <= i < |steps| ==> !Unblocks(steps[i])
  }

  /** Then no round starts, however often the timer ticks and whatever is logged, until one of these happens. */
  lemma {:induction false} StuckStaysStuck(s: State, steps: seq<Step>)
    requires Stuck(s) && RunOk(s, steps) && NothingUnblocks(steps)
    ensures Stuck(After(s, steps))
    decreases |steps|
  {
    hide Stuck, Next, Enabled;
    if steps != [] {
      StuckStep(s, steps[0]);
      StuckStaysStuck(Next(s, steps[0]), steps[1..]);
    }
  }
}
