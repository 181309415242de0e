/**
  The core dump stays in flash until a boot message of a boot after its crash has arrived. Every interleaving
  of the send protocol is covered, crashes and the unguarded store of the boot message id included.
 */
module CoreDump {
  import opened SendProtocol
  import opened SendRuns

  /** A step erases exactly when it is the answer to the current boot's own message, or its synchronous success. */
  lemma ErasesExactly(s: State, st: Step)
    requires IdsOk(s) && Enabled(s, st) && s.coreDump
    ensures !Next(s, st).coreDump <==>
      || (st.AckStep? && st.id == s.bootMsgId && s.bootMsgId > 0)
      || (st.RegisterBoot? && s.phase == BootSent(0))
  {
    hide Consumed, Release, Append, Issue, Arrive, Forget, Ack, Finish, MetaStep, Peek;
    AckFields(s, if st.AckStep? then st.id else 0);
    OthersKeepDump(s);
  }

  lemma OthersKeepDump(s: State)
    ensures forall send, result :: MetaStep(s, send, result).coreDump == s.coreDump
    ensures forall n :: Peek(s, n).coreDump == s.coreDump
    ensures s.phase.DataSent? ==> Finish(s).coreDump == s.coreDump
  {
    hide Consumed, Release, Issue;
  }

  lemma EraseNeedsArrival(s: State, st: Step)
    requires IdsOk(s) && Enabled(s, st) && s.coreDump && !Next(s, st).coreDump
    ensures (st.AckStep? && st.id == s.bootMsgId && st.id in s.traffic.pending
             && Named(s.traffic, st.id, BootMsg(s.boot)))
         || (st.RegisterBoot? && s.phase == BootSent(0))
  {
    hide Next;
    ErasesExactly(s, st);
  }

  /** Some boot message sent after the crash that wrote the latest core dump has arrived. */
  ghost predicate DumpReported(s: State) {
    exists b :: s.dumpBoot <= b <= s.boot && BootMsg(b) in s.traffic.delivered
  }

  /** An erased core dump was reported. */
  ghost predicate Reported(s: State) {
    && s.dumpBoot <= s.boot
    && (!s.coreDump ==> DumpReported(s))
    && (s.phase == BootSent(0) ==> BootMsg(s.boot) in s.traffic.delivered)
  }

  predicate IsCrash(st: Step) {
    st.Reset? && st.crash
  }

  predicate SameHistory(s: State, n: State) {
    n.boot == s.boot && n.dumpBoot == s.dumpBoot
  }

  lemma SendsKeepHistory(s: State)
    ensures forall send, result :: SameHistory(s, MetaStep(s, send, result))
    ensures forall result :: SameHistory(s, BootTransmit(s, result))
    ensures s.phase.BootSent? ==> SameHistory(s, BootRegister(s))
    ensures s.phase.Peeked? ==> forall result :: SameHistory(s, Transmit(s, result))
    ensures s.phase.DataSent? ==> SameHistory(s, Finish(s))
  {
    hide Release, Issue;
  }

  lemma EventsKeepHistory(s: State)
    ensures forall rec :: SameHistory(s, WriteLog(s, rec))
    ensures forall id :: SameHistory(s, Ack(s, id)) && SameHistory(s, Fail(s, id))
    ensures SameHistory(s, Timeout(s)) && SameHistory(s, DiscardAll(s))
    ensures forall missed :: SameHistory(s, Reenable(s, missed))
  {
    hide Release, Append, Arrive;
  }

  lemma TasksKeepHistory(s: State)
    ensures forall active :: SameHistory(s, Tick(s, active))
    ensures forall n :: SameHistory(s, Peek(s, n))
  {
    hide Consumed;
  }

  /** Only resets count boots. */
  lemma BootsCounted(s: State, st: Step)
    requires Enabled(s, st)
    ensures Next(s, st).boot == if st.Reset? then s.boot + 1 else s.boot
  {
    hide WriteLog, Tick, MetaStep, BootTransmit, BootRegister, Peek, Transmit, Finish, Ack, Fail, Timeout, DiscardAll,
         Reenable;
    SendsKeepHistory(s);
    EventsKeepHistory(s);
    TasksKeepHistory(s);
  }

  lemma DumpsCounted(s: State, st: Step)
    requires Enabled(s, st)
    ensures Next(s, st).dumpBoot == if IsCrash(st) then s.boot + 1 else s.dumpBoot
  {
    hide WriteLog, Tick, MetaStep, BootTransmit, BootRegister, Peek, Transmit, Finish, Ack, Fail, Timeout, DiscardAll,
         Reenable;
    SendsKeepHistory(s);
    EventsKeepHistory(s);
    TasksKeepHistory(s);
  }

  /** Only a crash writes a core dump. */
  lemma DumpsNeedCrash(s: State, st: Step)
    requires Enabled(s, st)
    ensures Next(s, st).coreDump ==> IsCrash(st) || s.coreDump
  {
    hide Consumed, Release, Append, Issue, Arrive;
  }

  lemma CrashWritesDump(s: State, st: Step)
    requires Enabled(s, st) && IsCrash(st)
    ensures Next(s, st).coreDump
  {
  }

  /** A boot message sent with synchronous success has arrived. */
  lemma SynchronousBootArrives(s: State, st: Step)
    requires Enabled(s, st)
    ensures Next(s, st).phase == BootSent(0) ==>
      (st.SendBoot? && BootMsg(s.boot) in Next(s, st).traffic.delivered) || (s.phase == BootSent(0) && !st.Reset?)
  {
    hide Next, Enabled;
    if st.SendBoot? {
      BootTransmitArrives(s, st.result);
    } else {
      NoOtherBootSent(s, st);
    }
  }

  lemma BootTransmitArrives(s: State, result: int)
    requires Enabled(s, SendBoot(result))
    ensures Next(s, SendBoot(result)).phase == BootSent(0) ==>
      BootMsg(s.boot) in Next(s, SendBoot(result)).traffic.delivered
  {
  }

  lemma NoOtherBootSent(s: State, st: Step)
    requires Enabled(s, st) && !st.SendBoot?
    ensures Next(s, st).phase == BootSent(0) ==> s.phase == BootSent(0) && !st.Reset?
  {
    hide Next;
    PhaseOf(s, st);
  }

  lemma ReportedKept(s: State, st: Step)
    requires IdsOk(s) && Reported(s) && Enabled(s, st)
    ensures Reported(Next(s, st))
  {
    hide Next, IdsOk, Enabled;
    var n := Next(s, st);
    DeliveredGrows(s, st);
    BootsCounted(s, st);
    DumpsCounted(s, st);
    DumpsNeedCrash(s, st);
    if IsCrash(st) {
      CrashWritesDump(s, st);
    }
    SynchronousBootArrives(s, st);
    if s.coreDump && !n.coreDump {
      EraseArrives(s, st);
      assert BootMsg(s.boot) in n.traffic.delivered;
    } else if !n.coreDump {
      var b :| s.dumpBoot <= b <= s.boot && BootMsg(b) in s.traffic.delivered;
      assert BootMsg(b) in n.traffic.delivered;
    }
  }

  lemma EraseArrives(s: State, st: Step)
    requires IdsOk(s) && Reported(s) && Enabled(s, st) && s.coreDump && !Next(s, st).coreDump
    ensures BootMsg(s.boot) in Next(s, st).traffic.delivered && !st.Reset?
  {
    hide Consumed, Release, Append, Issue;
    EraseNeedsArrival(s, st);
  }

  lemma {:induction false} RunReported(s: State, steps: seq<Step>)
    requires IdsOk(s) && Reported(s) && RunOk(s, steps)
    ensures Reported(After(s, steps)) && IdsOk(After(s, steps))
    decreases |steps|
  {
    hide Reported, IdsOk;
    if steps != [] {
      IdsKept(s, steps[0]);
      ReportedKept(s, steps[0]);
      RunReported(Next(s, steps[0]), steps[1..]);
    }
  }

  /**
    In every run from power-on, crashes included: when the core dump is gone, a boot message of this boot or
    one since the crash that wrote it has arrived.
   */
  lemma CoreDumpSafeFromPowerOn(capacity: nat, steps: seq<Step>)
    requires RunOk(Fresh(capacity), steps)
    ensures var n := After(Fresh(capacity), steps); !n.coreDump ==> DumpReported(n)
  {
    RunReported(Fresh(capacity), steps);
  }

  // ---- the same without history: what arrived since the crash ----

  /** Boot messages are of this boot or of earlier ones. */
  predicate BootsKnown(t: Traffic, boot: nat) {
    && (forall m :: m in t.delivered && m.BootMsg? ==> m.boot <= boot)
    && (forall id :: id in t.sent && t.sent[id].BootMsg? ==> t.sent[id].boot <= boot)
  }

  lemma IssueKeepsBoots(t: Traffic, boot: nat, id: int, m: Message)
    requires BootsKnown(t, boot) && (m.BootMsg? ==> m.boot <= boot)
    ensures BootsKnown(Issue(t, id, m), boot)
  {
  }

  lemma LessKeepsBoots(t: Traffic, boot: nat, id: int)
    requires BootsKnown(t, boot)
    ensures BootsKnown(Arrive(t, id), boot) && BootsKnown(t.(pending := t.pending - {id}), boot)
    ensures BootsKnown(Forget(t), boot + 1)
    ensures forall missed: set<int> :: BootsKnown(t.(pending := t.pending - missed), boot)
  {
  }

  lemma BootsKnownKept(s: State, st: Step)
    requires BootsKnown(s.traffic, s.boot) && Enabled(s, st)
    ensures BootsKnown(Next(s, st).traffic, Next(s, st).boot)
  {
    hide BootsKnown, Next, Issue, Arrive, Forget;
    TrafficOf(s, st);
    BootsCounted(s, st);
    match st
    case Meta(_, result) => IssueKeepsBoots(s.traffic, s.boot, result, MetaMsg);
    case SendBoot(result) => IssueKeepsBoots(s.traffic, s.boot, result, BootMsg(s.boot));
    case Send(result) => IssueKeepsBoots(s.traffic, s.boot, result, WindowMsg(s.phase));
    case AckStep(id) => LessKeepsBoots(s.traffic, s.boot, id);
    case FailStep(id) => LessKeepsBoots(s.traffic, s.boot, id);
    case Reset(_) => LessKeepsBoots(s.traffic, s.boot, 0);
    case ReenableStep(_) => LessKeepsBoots(s.traffic, s.boot, 0);
    case _ =>
  }

  lemma {:induction false} RunKnowsBoots(s: State, steps: seq<Step>)
    requires BootsKnown(s.traffic, s.boot) && RunOk(s, steps)
    ensures BootsKnown(After(s, steps).traffic, After(s, steps).boot)
    decreases |steps|
  {
    hide BootsKnown;
    if steps != [] {
      BootsKnownKept(s, steps[0]);
      RunKnowsBoots(Next(s, steps[0]), steps[1..]);
    }
  }

  predicate NoCrash(steps: seq<Step>) {
    forall i :: 0 <= i < |steps| ==> !IsCrash(steps[i])
  }

  lemma {:induction false} DumpStaysTheSame(s: State, steps: seq<Step>)
    requires RunOk(s, steps) && NoCrash(steps)
    ensures After(s, steps).dumpBoot == s.dumpBoot
    decreases |steps|
  {
    hide Next, Enabled;
    if steps != [] {
      DumpsCounted(s, steps[0]);
      DumpStaysTheSame(Next(s, steps[0]), steps[1..]);
    }
  }

  /**
    After any run, a crash writes a core dump. If it is gone later, without another crash in between, then a
    boot message that had not arrived before the crash has arrived since.
   */
  lemma ErasedDumpWasReportedSince(capacity: nat, before: seq<Step>, since: seq<Step>)
    requires RunOk(Fresh(capacity), before)
    requires RunOk(SoftReset(After(Fresh(capacity), before), true), since) && NoCrash(since)
    ensures var s := After(Fresh(capacity), before);
      var crashed := SoftReset(s, true);
      var n := After(crashed, since);
      && crashed.coreDump
      && (!n.coreDump ==> exists m :: m in n.traffic.delivered && m !in s.traffic.delivered && m.BootMsg?)
  {
    hide Next, Enabled, RunOk, After, IdsOk;
    var s := After(Fresh(capacity), before);
    FreshReported(capacity);
    RunReported(Fresh(capacity), before);
    RunKnowsBoots(Fresh(capacity), before);
    var crashed := SoftReset(s, true);
    CrashState(s);
    RunReported(crashed, since);
    DumpStaysTheSame(crashed, since);
    var n := After(crashed, since);
    if !n.coreDump {
      var b :| n.dumpBoot <= b <= n.boot && BootMsg(b) in n.traffic.delivered;
      assert BootMsg(b) !in s.traffic.delivered;
    }
  }

  lemma FreshReported(capacity: nat)
    ensures var s := Fresh(capacity); IdsOk(s) && Reported(s) && BootsKnown(s.traffic, s.boot)
  {
  }

  lemma CrashState(s: State)
    requires IdsOk(s) && Reported(s)
    ensures var n := SoftReset(s, true); n.coreDump && n.dumpBoot == s.boot + 1 && IdsOk(n) && Reported(n)
  {
  }

  // ---- superseded ids ----

  /** An id that a timeout or a failure took out of `boot_msg_id`, or that never was in it. */
  predicate Superseded(s: State, id: int) {
    id > 0 && id in s.traffic.sent && s.bootMsgId != id && s.phase != BootSent(id)
  }

  lemma TimeoutSupersedes(s: State)
    requires IdsOk(s) && s.bootMsgId > 0 && s.phase != BootSent(s.bootMsgId)
    ensures Superseded(Timeout(s), s.bootMsgId) && Superseded(Fail(s, s.bootMsgId), s.bootMsgId)
  {
  }

  lemma SupersededKept(s: State, st: Step, id: int)
    requires Superseded(s, id) && Enabled(s, st) && !st.Reset?
    ensures Superseded(Next(s, st), id)
  {
    hide Next, Issue, Arrive;
    TrafficOf(s, st);
    PhaseOf(s, st);
    BootMsgIdOf(s, st);
    match st
    case Meta(_, result) => IssueAdds(s.traffic, result, MetaMsg);
    case SendBoot(result) => IssueAdds(s.traffic, result, BootMsg(s.boot));
    case Send(result) => IssueAdds(s.traffic, result, WindowMsg(s.phase));
    case AckStep(answered) => ArriveKeepsSent(s.traffic, answered);
    case _ =>
  }

  /** A late answer to a superseded boot message never erases the core dump, however long after. */
  lemma {:induction false} SupersededNeverErases(s: State, steps: seq<Step>, id: int)
    requires Superseded(s, id) && RunOk(s, steps) && NoReset(steps)
    ensures var n := After(s, steps); Superseded(n, id) && Ack(n, id).coreDump == n.coreDump
    decreases |steps|
  {
    if steps != [] {
      SupersededKept(s, steps[0], id);
      SupersededNeverErases(Next(s, steps[0]), steps[1..], id);
    }
  }

  /**
    From the timeout or the failure of a boot message on: whatever happens before the next boot, an answer to
    that message leaves the core dump alone.
   */
  lemma GivenUpNeverErases(s: State, failed: bool, steps: seq<Step>)
    requires IdsOk(s) && s.bootMsgId > 0 && s.phase != BootSent(s.bootMsgId) && NoReset(steps)
    requires RunOk(if failed then Fail(s, s.bootMsgId) else Timeout(s), steps)
    ensures var n := After(if failed then Fail(s, s.bootMsgId) else Timeout(s), steps);
      Ack(n, s.bootMsgId).coreDump == n.coreDump
  {
    hide RunOk, After, Fail, Timeout, IdsOk;
    TimeoutSupersedes(s);
    SupersededNeverErases(if failed then Fail(s, s.bootMsgId) else Timeout(s), steps, s.bootMsgId);
  }

  predicate NoReenable(steps: seq<Step>) {
    forall i :: 0 <= i < |steps| ==> !steps[i].ReenableStep?
  }

  /** Once the boot message is settled it is not sent again before the next boot or the next enabling. */
  lemma {:induction false} SettledStaysSettled(s: State, steps: seq<Step>)
    requires s.bootMsgId == 0 && !s.phase.BootSent? && RunOk(s, steps) && NoReset(steps) && NoReenable(steps)
    ensures var n := After(s, steps); n.bootMsgId == 0 && !n.phase.BootSent?
    decreases |steps|
  {
    if steps != [] {
      SettledStep(s, steps[0]);
      SettledStaysSettled(Next(s, steps[0]), steps[1..]);
    }
  }

  lemma SettledStep(s: State, st: Step)
    requires s.bootMsgId == 0 && !s.phase.BootSent? && Enabled(s, st) && !st.Reset? && !st.ReenableStep?
    ensures Next(s, st).bootMsgId == 0 && !Next(s, st).phase.BootSent?
  {
    hide Next;
    PhaseOf(s, st);
    BootMsgIdOf(s, st);
  }
}
