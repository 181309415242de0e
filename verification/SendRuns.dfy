/**
  Every interleaving of the send protocol: what holds after each step, at-least-once delivery under its three
  hypotheses, and exactly which answers release bytes of other messages without them.
 */
module SendRuns {
  import opened Bytes
  import opened LogEncoder
  import opened SendProtocol

  datatype Step =
    | WriteStep(rec: seq<byte>)
    | TickStep(active: bool)
    | Meta(send: bool, result: int)
    | SendBoot(result: int)
    | SkipBoot
    | RegisterBoot
    | PeekStep(nonCriticalConsumed: nat)
    | Send(result: int)
    | FinishSend
    | AckStep(id: int)
    | FailStep(id: int)
    | TimeoutStep
    | Reset(crash: bool)
    | DiscardStep
    | ReenableStep(missed: set<int>)

  /** An id the transport may return: failure, synchronous success, or an id not used in this boot. */
  predicate Answerable(t: Traffic, result: int) {
    result >= -1 && (result > 0 ==> result !in t.sent)
  }

  /** What can happen next, given the transport's contract: one answer per message, ids not reused. */
  predicate Enabled(s: State, st: Step) {
    match st
    case WriteStep(rec) => |rec| == 1 + LOG_SIZE
    case TickStep(_) => s.phase.Idle?
    case Meta(_, result) => s.phase.AtMeta? && Answerable(s.traffic, result)
    case SendBoot(result) => s.phase.AtBoot? && s.bootMsgId == -1 && Answerable(s.traffic, result)
    case SkipBoot => s.phase.AtBoot? && s.bootMsgId != -1
    case RegisterBoot => s.phase.BootSent?
    case PeekStep(_) => s.phase.AtData?
    case Send(result) => s.phase.Peeked? && Answerable(s.traffic, result)
    case FinishSend => s.phase.DataSent?
    case AckStep(id) => id in s.traffic.pending
    case FailStep(id) => id in s.traffic.pending
    case TimeoutStep => true  // an expired callback may still wait for the lock when the timer is stopped
    case Reset(_) => true
    case DiscardStep => true
    case ReenableStep(_) => s.phase.Idle?
  }

  function Next(s: State, st: Step): State
    requires Enabled(s, st)
  {
    match st
    case WriteStep(rec) => WriteLog(s, rec)
    case TickStep(active) => Tick(s, active)
    case Meta(send, result) => MetaStep(s, send, result)
    case SendBoot(result) => BootTransmit(s, result)
    case SkipBoot => s.(phase := AtData)
    case RegisterBoot => BootRegister(s)
    case PeekStep(nc) => Peek(s, nc)
    case Send(result) => Transmit(s, result)
    case FinishSend => Finish(s)
    case AckStep(id) => Ack(s, id)
    case FailStep(id) => Fail(s, id)
    case TimeoutStep => Timeout(s)
    case Reset(crash) => SoftReset(s, crash)
    case DiscardStep => DiscardAll(s)
    case ReenableStep(missed) => Reenable(s, missed)
  }

  // ---- what a step does to each part of the state ----

  /** The effect of a success event on the session's own variables. */
  lemma AckFields(s: State, id: int)
    ensures var n := Ack(s, id);
      var data := id != 0 && id == s.dataMsgId;
      var meta := id != 0 && id != s.dataMsgId && s.metaPending && id == s.metaMsgId;
      var boot := id != 0 && !data && !meta && s.bootMsgId > 0 && id == s.bootMsgId;
      && n.phase == s.phase && n.dataMsgId == s.dataMsgId
      && n.inProgress == (s.inProgress && !data) && n.timerActive == (s.timerActive && !data)
      && n.dataSent == (s.dataSent || data || meta) && n.metaPending == (s.metaPending && !meta)
      && n.coreDump == (s.coreDump && !boot) && n.bootMsgId == if boot then 0 else s.bootMsgId
  {
    hide Release, Arrive;
  }

  function NextTraffic(s: State, st: Step): Traffic
    requires Enabled(s, st)
  {
    var t := s.traffic;
    match st
    case Meta(send, result) => if send then Issue(t, result, MetaMsg) else t
    case SendBoot(result) => Issue(t, result, BootMsg(s.boot))
    case Send(result) => Issue(t, result, WindowMsg(s.phase))
    case AckStep(id) => if id == 0 then t else Arrive(t, id)
    case FailStep(id) => t.(pending := t.pending - {id})
    case ReenableStep(missed) => t.(pending := t.pending - missed)
    case Reset(_) => Forget(t)
    case _ => t
  }

  lemma TrafficOf(s: State, st: Step)
    requires Enabled(s, st)
    ensures Next(s, st).traffic == NextTraffic(s, st)
  {
    hide Consumed, Release, Append, Issue, Arrive, Forget;
  }

  function NextPhase(s: State, st: Step): Phase
    requires Enabled(s, st)
  {
    match st
    case TickStep(active) => if active && !s.inProgress then AtMeta else s.phase
    case Meta(_, _) => AtBoot
    case SendBoot(result) => BootSent(result)
    case SkipBoot => AtData
    case RegisterBoot => AtData
    case PeekStep(n) =>
      var c := Consumed(s.queue.bytes);
      if c == 0 && n == 0 then Idle else Peeked(s.queue.released, s.queue.bytes[..c], Span(s.encoded, n))
    case Send(result) => DataSent(s.phase.start, s.phase.body, s.phase.points, result)
    case FinishSend => Idle
    case Reset(_) => Idle
    case _ => s.phase
  }

  lemma PhaseOf(s: State, st: Step)
    requires Enabled(s, st)
    ensures Next(s, st).phase == NextPhase(s, st)
  {
    hide Consumed, Release, Append, Issue, Arrive, Forget;
  }

  function NextQueue(s: State, st: Step): Ledger
    requires Enabled(s, st)
  {
    match st
    case WriteStep(rec) => Append(s.queue, rec)
    case FinishSend => if s.phase.result == 0 then Release(s.queue, |s.phase.body|) else s.queue
    case AckStep(id) => if id != 0 && id == s.dataMsgId then Release(s.queue, s.dataMsgLen) else s.queue
    case DiscardStep => Release(s.queue, |s.queue.bytes|)
    case _ => s.queue
  }

  lemma QueueOf(s: State, st: Step)
    requires Enabled(s, st)
    ensures Next(s, st).queue == NextQueue(s, st)
  {
    hide Consumed, Release, Append, Issue, Arrive, Forget;
  }

  function NextBootMsgId(s: State, st: Step): int
    requires Enabled(s, st)
  {
    match st
    case RegisterBoot => s.phase.result
    case AckStep(id) =>
      if id != 0 && id != s.dataMsgId && !(s.metaPending && id == s.metaMsgId) && s.bootMsgId > 0 && id == s.bootMsgId
      then 0 else s.bootMsgId
    case FailStep(id) => if s.bootMsgId > 0 && id == s.bootMsgId then -1 else s.bootMsgId
    case TimeoutStep => if s.bootMsgId > 0 then -1 else s.bootMsgId
    case Reset(_) => -1
    case ReenableStep(_) => -1
    case _ => s.bootMsgId
  }

  lemma SendsKeepBootMsgId(s: State)
    ensures forall send, result :: MetaStep(s, send, result).bootMsgId == s.bootMsgId
    ensures s.phase.DataSent? ==> Finish(s).bootMsgId == s.bootMsgId
  {
    hide Release, Issue;
  }

  lemma BootMsgIdOf(s: State, st: Step)
    requires Enabled(s, st)
    ensures Next(s, st).bootMsgId == NextBootMsgId(s, st)
  {
    hide Consumed, Release, Append, Issue, Arrive, Forget, Ack, Finish, MetaStep;
    AckFields(s, if st.AckStep? then st.id else 0);
    SendsKeepBootMsgId(s);
  }

  lemma EncodedOf(s: State, st: Step)
    requires Enabled(s, st)
    ensures Next(s, st).encoded ==
      if st.PeekStep? && !(Consumed(s.queue.bytes) == 0 && st.nonCriticalConsumed == 0)
      then s.encoded + st.nonCriticalConsumed else s.encoded
  {
    hide Consumed, Release, Append, Issue, Arrive, Forget;
  }

  /**
    Every step of a run is one method of the session. `msgId` and `criticalConsumed` are what the task that
    sends holds in its locals.
   */
  method Perform(session: Session, st: Step, msgId: int, criticalConsumed: nat)
    requires Enabled(session.View(), st)
    requires st.RegisterBoot? ==> session.phase.result == msgId
    requires st.FinishSend? ==> session.phase.result == msgId && |session.phase.body| == criticalConsumed
    modifies session
    ensures session.View() == Next(old(session.View()), st)
  {
    hide WriteLog, Tick, MetaStep, BootTransmit, BootRegister, Peek, Transmit, Finish, Ack, Fail, Timeout, SoftReset,
         DiscardAll, Reenable;
    match st {
      case WriteStep(rec) => session.CriticalWrite(rec);
      case TickStep(active) => session.PeriodicHandler(active);
      case Meta(send, result) => session.SendMeta(send, result);
      case SendBoot(result) => session.SendBootTransmit(result);
      case SkipBoot => session.SkipBoot();
      case RegisterBoot => session.SendBootReturned(msgId);
      case PeekStep(n) => var _ := session.SendDataEncode(n);
      case Send(result) => session.SendDataTransmit(result);
      case FinishSend => session.SendDataReturned(msgId, criticalConsumed);
      case AckStep(id) => session.OnSendSuccess(id);
      case FailStep(id) => session.OnSendFailed(id);
      case TimeoutStep => session.OnTimeout();
      case Reset(crash) => session.Restart(crash);
      case DiscardStep => session.DiscardData();
      case ReenableStep(missed) => session.DisableAndEnable(missed);
    }
  }

  predicate RunOk(s: State, steps: seq<Step>)
    decreases |steps|
  {
    steps == [] || (Enabled(s, steps[0]) && RunOk(Next(s, steps[0]), steps[1..]))
  }

  function After(s: State, steps: seq<Step>): State
    requires RunOk(s, steps)
    decreases |steps|
  {
    if steps == [] then s else After(Next(s, steps[0]), steps[1..])
  }

  /**
    The three hypotheses of safety. The transport answers either all data messages at once or none at once; no
    success event for the registered id is handled while a newer window is peeked but not registered; and queued
    data are not discarded on purpose.
   */
  predicate Calm(s: State, st: Step, sync: bool) {
    match st
    case Send(result) => if sync then result <= 0 else result != 0
    case AckStep(id) => id == s.dataMsgId ==> !s.phase.Peeked? && !s.phase.DataSent?
    case DiscardStep => s.queue.bytes == []
    case _ => true
  }

  predicate CalmRun(s: State, steps: seq<Step>, sync: bool)
    requires RunOk(s, steps)
    decreases |steps|
  {
    steps == [] || (Calm(s, steps[0], sync) && CalmRun(Next(s, steps[0]), steps[1..], sync))
  }

  // ---- ids ----

  predicate Named(t: Traffic, id: int, m: Message) {
    id in t.sent && t.sent[id] == m
  }

  predicate SentOk(t: Traffic) {
    (forall id :: id in t.sent ==> id > 0) && (forall id :: id in t.pending ==> id in t.sent)
  }

  /** The registered ids are ids of messages of their kind. */
  predicate RegisteredOk(s: State) {
    && (s.dataMsgId != 0 ==> s.dataMsgId in s.traffic.sent && s.traffic.sent[s.dataMsgId].DataMsg?)
    && (s.metaPending ==> Named(s.traffic, s.metaMsgId, MetaMsg))
    && (s.bootMsgId > 0 ==> Named(s.traffic, s.bootMsgId, BootMsg(s.boot)))
  }

  predicate PhaseOk(s: State) {
    match s.phase
    case BootSent(r) => r > 0 ==> Named(s.traffic, r, BootMsg(s.boot))
    case DataSent(_, _, _, r) => r > 0 ==> Named(s.traffic, r, WindowMsg(s.phase)) && r != s.dataMsgId
    case _ => true
  }

  predicate IdsOk(s: State) {
    SentOk(s.traffic) && RegisteredOk(s) && PhaseOk(s)
  }

  lemma IssueKeepsIds(s: State, id: int, m: Message)
    requires SentOk(s.traffic) && RegisteredOk(s) && Answerable(s.traffic, id)
    ensures var t := Issue(s.traffic, id, m);
      SentOk(t) && RegisteredOk(s.(traffic := t)) && (id > 0 ==> Named(t, id, m) && id != s.dataMsgId)
  {
  }

  lemma MetaKeepsIds(s: State, send: bool, result: int)
    requires IdsOk(s) && s.phase.AtMeta? && Answerable(s.traffic, result)
    ensures IdsOk(MetaStep(s, send, result))
  {
    hide Issue, SentOk;
    IssueKeepsIds(s, result, MetaMsg);
  }

  lemma BootKeepsIds(s: State, result: int)
    requires IdsOk(s) && s.phase.AtBoot? && Answerable(s.traffic, result)
    ensures IdsOk(BootTransmit(s, result))
  {
    hide Issue, SentOk;
    IssueKeepsIds(s, result, BootMsg(s.boot));
  }

  lemma TransmitKeepsIds(s: State, result: int)
    requires IdsOk(s) && s.phase.Peeked? && Answerable(s.traffic, result)
    ensures IdsOk(Transmit(s, result))
  {
    hide Issue, SentOk;
    IssueKeepsIds(s, result, WindowMsg(s.phase));
  }

  lemma OthersKeepIds(s: State)
    requires IdsOk(s)
    ensures forall rec :: IdsOk(WriteLog(s, rec))
    ensures forall active :: IdsOk(Tick(s, active))
    ensures forall n :: IdsOk(Peek(s, n))
    ensures s.phase.BootSent? ==> IdsOk(BootRegister(s))
    ensures IdsOk(s.(phase := AtData))
  {
    hide Consumed, Append, Named;
  }

  lemma InterruptsKeepIds(s: State)
    requires IdsOk(s)
    ensures IdsOk(Timeout(s)) && IdsOk(DiscardAll(s)) && forall crash :: IdsOk(SoftReset(s, crash))
  {
    hide Release, Named;
  }

  lemma ReenableKeepsIds(s: State, missed: set<int>)
    requires IdsOk(s)
    ensures IdsOk(Reenable(s, missed))
  {
  }

  lemma IdsKept(s: State, st: Step)
    requires IdsOk(s) && Enabled(s, st)
    ensures IdsOk(Next(s, st))
  {
    hide IdsOk, WriteLog, Tick, MetaStep, BootTransmit, BootRegister, Peek, Transmit, Finish, Ack, Fail, Timeout,
         SoftReset, DiscardAll, Reenable;
    match st
    case Meta(send, result) => MetaKeepsIds(s, send, result);
    case SendBoot(result) => BootKeepsIds(s, result);
    case Send(result) => TransmitKeepsIds(s, result);
    case FinishSend => FinishKeepsIds(s);
    case AckStep(id) => AckKeepsIds(s, id);
    case FailStep(id) => FailKeepsIds(s, id);
    case ReenableStep(missed) => ReenableKeepsIds(s, missed);
    case TimeoutStep => InterruptsKeepIds(s);
    case DiscardStep => InterruptsKeepIds(s);
    case Reset(_) => InterruptsKeepIds(s);
    case _ => OthersKeepIds(s);
  }

  lemma FinishKeepsIds(s: State)
    requires IdsOk(s) && s.phase.DataSent?
    ensures IdsOk(Finish(s))
  {
    hide Release;
  }

  lemma AckKeepsIds(s: State, id: int)
    requires IdsOk(s)
    ensures IdsOk(Ack(s, id))
  {
    hide Arrive, Release;
    ArriveKeepsSent(s.traffic, id);
  }

  lemma ArriveKeepsSent(t: Traffic, id: int)
    ensures Arrive(t, id).sent == t.sent && Arrive(t, id).pending <= t.pending && t.delivered <= Arrive(t, id).delivered
  {
  }

  lemma IssueAdds(t: Traffic, id: int, m: Message)
    ensures t.delivered <= Issue(t, id, m).delivered
    ensures forall other :: other in t.sent ==> other in Issue(t, id, m).sent
  {
  }

  lemma FailKeepsIds(s: State, id: int)
    requires IdsOk(s)
    ensures IdsOk(Fail(s, id))
  {
  }

  lemma DeliveredGrows(s: State, st: Step)
    requires Enabled(s, st)
    ensures s.traffic.delivered <= Next(s, st).traffic.delivered
  {
    hide Next, Issue, Arrive;
    TrafficOf(s, st);
    match st
    case Meta(_, result) => IssueAdds(s.traffic, result, MetaMsg);
    case SendBoot(result) => IssueAdds(s.traffic, result, BootMsg(s.boot));
    case Send(result) => IssueAdds(s.traffic, result, WindowMsg(s.phase));
    case AckStep(id) => ArriveKeepsSent(s.traffic, id);
    case _ =>
  }

  // ---- conservation ----

  /** A data message carries bytes that were written, at their place. */
  predicate Carries(written: seq<byte>, m: Message) {
    m.DataMsg? ==> m.start + |m.body| <= |written| && m.body == written[m.start..m.start + |m.body|]
  }

  predicate PhaseCarries(written: seq<byte>, ph: Phase) {
    match ph
    case Peeked(_, _, _) => Carries(written, WindowMsg(ph))
    case DataSent(_, _, _, _) => Carries(written, WindowMsg(ph))
    case _ => true
  }

  predicate AllCarry(written: seq<byte>, t: Traffic) {
    && (forall id :: id in t.sent ==> Carries(written, t.sent[id]))
    && (forall m :: m in t.delivered ==> Carries(written, m))
  }

  predicate LedgerOk(q: Ledger) {
    q.released <= |q.written| && q.bytes == q.written[q.released..]
  }

  /** Nothing accepted is lost track of, and every data message carried bytes that were written. */
  predicate Conserved(s: State) {
    LedgerOk(s.queue) && AllCarry(s.queue.written, s.traffic) && PhaseCarries(s.queue.written, s.phase)
  }

  lemma ReleaseKeepsLedger(q: Ledger, len: nat)
    requires LedgerOk(q)
    ensures LedgerOk(Release(q, len)) && Release(q, len).written == q.written
  {
    if len <= |q.bytes| {
      assert q.bytes[len..] == q.written[q.released + len..];
    }
  }

  lemma CarriesMore(written: seq<byte>, rec: seq<byte>, m: Message)
    requires Carries(written, m)
    ensures Carries(written + rec, m)
  {
    if m.DataMsg? {
      assert (written + rec)[m.start..m.start + |m.body|] == written[m.start..m.start + |m.body|];
    }
  }

  lemma WriteConserves(s: State, rec: seq<byte>)
    requires Conserved(s)
    ensures Conserved(WriteLog(s, rec))
  {
    hide Carries;
    var w := s.queue.written;
    forall m | Carries(w, m) ensures Carries(w + rec, m) {
      CarriesMore(w, rec, m);
    }
    assert (w + rec)[s.queue.released..] == s.queue.bytes + rec;
  }

  lemma PeekCarries(q: Ledger, n: nat)
    requires LedgerOk(q) && n <= |q.bytes|
    ensures forall points :: Carries(q.written, DataMsg(q.released, q.bytes[..n], points))
  {
    assert q.bytes[..n] == q.written[q.released..q.released + n];
  }

  lemma IssueCarries(written: seq<byte>, t: Traffic, id: int, m: Message)
    requires AllCarry(written, t) && Carries(written, m)
    ensures AllCarry(written, Issue(t, id, m))
  {
    hide Carries;
  }

  lemma ArriveCarries(written: seq<byte>, t: Traffic, id: int)
    requires AllCarry(written, t)
    ensures AllCarry(written, Arrive(t, id))
  {
    hide Carries;
  }

  lemma ReenableCarries(written: seq<byte>, t: Traffic)
    requires AllCarry(written, t)
    ensures forall missed: set<int> :: AllCarry(written, t.(pending := t.pending - missed))
  {
  }

  lemma DiscardKeepsLedger(q: Ledger)
    requires LedgerOk(q)
    ensures LedgerOk(Release(q, |q.bytes|)) && Release(q, |q.bytes|).written == q.written
  {
    ReleaseKeepsLedger(q, |q.bytes|);
  }

  lemma LessTrafficCarries(written: seq<byte>, t: Traffic, pending: set<int>)
    requires AllCarry(written, t)
    ensures AllCarry(written, t.(pending := pending)) && AllCarry(written, Traffic(map[], {}, t.delivered))
  {
  }

  lemma OthersCarryNothing(written: seq<byte>)
    ensures Carries(written, MetaMsg) && forall boot :: Carries(written, BootMsg(boot))
  {
  }

  lemma AckConserves(s: State, id: int)
    requires Conserved(s)
    ensures Conserved(Ack(s, id))
  {
    hide Release, Arrive, AllCarry, LedgerOk;
    ArriveCarries(s.queue.written, s.traffic, id);
    ReleaseKeepsLedger(s.queue, s.dataMsgLen);
  }

  lemma FailConserves(s: State, id: int)
    requires Conserved(s)
    ensures Conserved(Fail(s, id))
  {
    hide AllCarry, LedgerOk;
    LessTrafficCarries(s.queue.written, s.traffic, s.traffic.pending - {id});
  }

  lemma SendsConserve(s: State, result: int)
    requires Conserved(s)
    ensures forall send :: Conserved(MetaStep(s, send, result))
    ensures Conserved(BootTransmit(s, result))
    ensures s.phase.Peeked? ==> Conserved(Transmit(s, result))
  {
    hide Issue, Carries, AllCarry, LedgerOk;
    var w := s.queue.written;
    OthersCarryNothing(w);
    IssueCarries(w, s.traffic, result, MetaMsg);
    IssueCarries(w, s.traffic, result, BootMsg(s.boot));
    if s.phase.Peeked? {
      IssueCarries(w, s.traffic, result, WindowMsg(s.phase));
    }
  }

  lemma FinishConserves(s: State)
    requires Conserved(s) && s.phase.DataSent?
    ensures Conserved(Finish(s))
  {
    hide Release, AllCarry, LedgerOk, Carries;
    ReleaseKeepsLedger(s.queue, |s.phase.body|);
  }

  lemma OthersConserve(s: State)
    requires Conserved(s)
    ensures forall active :: Conserved(Tick(s, active))
    ensures forall n :: Conserved(Peek(s, n))
    ensures s.phase.BootSent? ==> Conserved(BootRegister(s))
    ensures Conserved(s.(phase := AtData)) && Conserved(Timeout(s)) && forall crash :: Conserved(SoftReset(s, crash))
    ensures Conserved(DiscardAll(s)) && forall missed :: Conserved(Reenable(s, missed))
  {
    hide Consumed, AllCarry, LedgerOk, Carries;
    PeekCarries(s.queue, Consumed(s.queue.bytes));
    DiscardKeepsLedger(s.queue);
    ReenableCarries(s.queue.written, s.traffic);
    LessTrafficCarries(s.queue.written, s.traffic, {});
  }

  lemma ConservedKept(s: State, st: Step)
    requires Conserved(s) && Enabled(s, st)
    ensures Conserved(Next(s, st))
  {
    hide Conserved, WriteLog, Tick, MetaStep, BootTransmit, BootRegister, Peek, Transmit, Finish, Ack, Fail, Timeout,
         SoftReset, DiscardAll, Reenable;
    match st
    case WriteStep(rec) => WriteConserves(s, rec);
    case Meta(send, result) => SendsConserve(s, result);
    case SendBoot(result) => SendsConserve(s, result);
    case Send(result) => SendsConserve(s, result);
    case FinishSend => FinishConserves(s);
    case AckStep(id) => AckConserves(s, id);
    case FailStep(id) => FailConserves(s, id);
    case _ => OthersConserve(s);
  }

  // ---- safety ----

  predicate Covers(m: Message, p: nat) {
    m.DataMsg? && m.start <= p < m.start + |m.body|
  }

  /** Position `p` of the written bytes was in a message that is known to have arrived. */
  ghost predicate Arrived(delivered: set<Message>, p: nat) {
    exists m :: m in delivered && Covers(m, p)
  }

  ghost predicate AllArrived(delivered: set<Message>, n: nat) {
    forall p :: 0 <= p < n ==> Arrived(delivered, p)
  }

  /** What the next matching answer releases is the head of the queue as its message carried it. */
  predicate AnswerOk(s: State) {
    s.dataMsgId in s.traffic.pending ==>
      && s.dataMsgId in s.traffic.sent && s.traffic.sent[s.dataMsgId].DataMsg?
      && s.traffic.sent[s.dataMsgId].start == s.queue.released
      && |s.traffic.sent[s.dataMsgId].body| == s.dataMsgLen
  }

  predicate WindowOk(s: State) {
    match s.phase
    case Peeked(start, _, _) => start == s.queue.released
    case DataSent(start, _, _, r) =>
      start == s.queue.released && (r == 0 ==> WindowMsg(s.phase) in s.traffic.delivered)
    case _ => true
  }

  predicate ModeOk(s: State, sync: bool) {
    if sync then forall id :: id in s.traffic.sent ==> !s.traffic.sent[id].DataMsg?
    else s.phase.DataSent? ==> s.phase.result != 0
  }

  ghost predicate Safe(s: State, sync: bool) {
    AllArrived(s.traffic.delivered, s.queue.released) && AnswerOk(s) && WindowOk(s) && ModeOk(s, sync)
  }

  lemma MoreDelivered(delivered: set<Message>, more: set<Message>, n: nat)
    requires AllArrived(delivered, n) && delivered <= more
    ensures AllArrived(more, n)
  {
    forall p | 0 <= p < n ensures Arrived(more, p) {
      assert Arrived(delivered, p);
      var m :| m in delivered && Covers(m, p);
      assert m in more;
    }
  }

  /** Releasing exactly the bytes of a delivered message that starts at the head keeps every released byte covered. */
  lemma ReleaseArrived(q: Ledger, delivered: set<Message>, m: Message)
    requires AllArrived(delivered, q.released) && m in delivered && m.DataMsg? && m.start == q.released
    ensures AllArrived(delivered, Release(q, |m.body|).released)
  {
    forall p | 0 <= p < Release(q, |m.body|).released ensures Arrived(delivered, p) {
      if p >= q.released {
        assert Covers(m, p);
      }
    }
  }

  lemma AckIsSafe(s: State, id: int, sync: bool)
    requires IdsOk(s) && Safe(s, sync) && id in s.traffic.pending && Calm(s, AckStep(id), sync)
    ensures Safe(Ack(s, id), sync)
  {
    var t := Arrive(s.traffic, id);
    MoreDelivered(s.traffic.delivered, t.delivered, s.queue.released);
    if id == s.dataMsgId {
      ReleaseArrived(s.queue, t.delivered, s.traffic.sent[id]);
    }
  }

  lemma FinishIsSafe(s: State, sync: bool)
    requires IdsOk(s) && Safe(s, sync) && s.phase.DataSent?
    ensures Safe(Finish(s), sync)
  {
    if s.phase.result == 0 {
      ReleaseArrived(s.queue, s.traffic.delivered, WindowMsg(s.phase));
    }
  }

  lemma IssueIsSafe(s: State, id: int, m: Message, sync: bool)
    requires IdsOk(s) && Safe(s, sync) && Answerable(s.traffic, id) && !s.phase.DataSent?
    requires sync && id > 0 ==> !m.DataMsg?
    ensures var n := s.(traffic := Issue(s.traffic, id, m));
      AllArrived(n.traffic.delivered, n.queue.released) && AnswerOk(n) && WindowOk(n)
      && ModeOk(n, sync) && (id == 0 ==> m in n.traffic.delivered)
  {
    MoreDelivered(s.traffic.delivered, Issue(s.traffic, id, m).delivered, s.queue.released);
  }

  lemma SendIsSafe(s: State, st: Step, sync: bool)
    requires st.Meta? || st.SendBoot? || st.Send?
    requires IdsOk(s) && Safe(s, sync) && Enabled(s, st) && Calm(s, st, sync)
    ensures Safe(Next(s, st), sync)
  {
    hide Issue, AllArrived;
    IssueIsSafe(s, st.result,
      if st.Meta? then MetaMsg else if st.SendBoot? then BootMsg(s.boot) else WindowMsg(s.phase),
      sync);
  }

  lemma SafeKept(s: State, st: Step, sync: bool)
    requires IdsOk(s) && Safe(s, sync) && Enabled(s, st) && Calm(s, st, sync)
    ensures Safe(Next(s, st), sync)
  {
    hide Safe, WriteLog, Tick, MetaStep, BootTransmit, BootRegister, Peek, Transmit, Finish, Ack, Fail, Timeout,
         SoftReset, DiscardAll, Reenable;
    match st
    case WriteStep(rec) => WriteIsSafe(s, rec, sync);
    case Meta(send, result) => SendIsSafe(s, st, sync);
    case SendBoot(result) => SendIsSafe(s, st, sync);
    case Send(result) => SendIsSafe(s, st, sync);
    case FinishSend => FinishIsSafe(s, sync);
    case AckStep(id) => AckIsSafe(s, id, sync);
    case FailStep(id) => FailIsSafe(s, id, sync);
    case TimeoutStep => InterruptsAreSafe(s, sync);
    case PeekStep(n) => PeekIsSafe(s, n, sync);
    case Reset(_) => InterruptsAreSafe(s, sync);
    case DiscardStep => ReenableIsSafe(s, {}, sync);
    case ReenableStep(missed) => ReenableIsSafe(s, missed, sync);
    case _ => OthersAreSafe(s, sync);
  }

  lemma WriteIsSafe(s: State, rec: seq<byte>, sync: bool)
    requires Safe(s, sync)
    ensures Safe(WriteLog(s, rec), sync)
  {
    hide AllArrived;
  }

  lemma OthersAreSafe(s: State, sync: bool)
    requires Safe(s, sync)
    ensures forall active :: Safe(Tick(s, active), sync)
    ensures s.phase.BootSent? ==> Safe(BootRegister(s), sync)
    ensures Safe(s.(phase := AtData), sync)
  {
    hide AllArrived;
  }

  lemma PeekIsSafe(s: State, n: nat, sync: bool)
    requires Safe(s, sync)
    ensures Safe(Peek(s, n), sync)
  {
    hide Consumed, AllArrived;
  }

  lemma ReenableIsSafe(s: State, missed: set<int>, sync: bool)
    requires Safe(s, sync)
    ensures Safe(Reenable(s, missed), sync) && (s.queue.bytes == [] ==> Safe(DiscardAll(s), sync))
  {
    hide AllArrived;
  }

  lemma InterruptsAreSafe(s: State, sync: bool)
    requires Safe(s, sync)
    ensures Safe(Timeout(s), sync) && forall crash :: Safe(SoftReset(s, crash), sync)
  {
    hide AllArrived;
  }

  lemma FailIsSafe(s: State, id: int, sync: bool)
    requires Safe(s, sync)
    ensures Safe(Fail(s, id), sync)
  {
    hide AllArrived;
  }

  /** With no hypothesis at all: ids are what they seem and no accepted byte is lost track of. */
  lemma {:induction false} RunConserves(s: State, steps: seq<Step>)
    requires IdsOk(s) && Conserved(s) && RunOk(s, steps)
    ensures IdsOk(After(s, steps)) && Conserved(After(s, steps))
    decreases |steps|
  {
    hide IdsOk, Conserved, Next, Enabled;
    if steps != [] {
      IdsKept(s, steps[0]);
      ConservedKept(s, steps[0]);
      RunConserves(Next(s, steps[0]), steps[1..]);
    }
  }

  predicate NoReset(steps: seq<Step>) {
    forall i :: 0 <= i < |steps| ==> !steps[i].Reset?
  }

  lemma {:induction false} RunKeeps(s: State, steps: seq<Step>, sync: bool)
    requires IdsOk(s) && Conserved(s) && Safe(s, sync) && RunOk(s, steps) && CalmRun(s, steps, sync)
    ensures var n := After(s, steps); IdsOk(n) && Conserved(n) && Safe(n, sync)
    decreases |steps|
  {
    if steps != [] {
      IdsKept(s, steps[0]);
      ConservedKept(s, steps[0]);
      SafeKept(s, steps[0], sync);
      RunKeeps(Next(s, steps[0]), steps[1..], sync);
    }
  }

  /** The byte accepted at position `p` reached the other side in some message, at its place. */
  ghost predicate ByteArrived(s: State, p: nat)
    requires p < |s.queue.written|
  {
    exists m :: m in s.traffic.delivered && Covers(m, p) && m.body[p - m.start] == s.queue.written[p]
  }

  /**
    At-least-once: in every calm run from power-on, through any writes, sends, answers, failures,
    timeouts and soft resets, what was accepted is what was released followed by what is queued, and every
    released byte was in a message that arrived and that carried that very byte.
   */
  lemma AtLeastOnce(capacity: nat, steps: seq<Step>, sync: bool)
    requires RunOk(Fresh(capacity), steps) && CalmRun(Fresh(capacity), steps, sync)
    ensures var n := After(Fresh(capacity), steps);
      && n.queue.released <= |n.queue.written|
      && n.queue.written == n.queue.written[..n.queue.released] + n.queue.bytes
      && forall p :: 0 <= p < n.queue.released ==> ByteArrived(n, p)
  {
    RunKeeps(Fresh(capacity), steps, sync);
    var n := After(Fresh(capacity), steps);
    forall p | 0 <= p < n.queue.released
      ensures ByteArrived(n, p)
    {
      assert Arrived(n.traffic.delivered, p);
      var m :| m in n.traffic.delivered && Covers(m, p);
      assert Carries(n.queue.written, m);
      assert n.queue.written[m.start..m.start + |m.body|][p - m.start] == n.queue.written[p];
    }
  }

  // ---- without the hypotheses ----

  /**
    One answer releases only bytes its own message carried exactly when that message starts at the head of
    the queue, or when there is nothing to release, or when the store refuses because less is queued.
   */
  lemma AnswerIsExactWhen(s: State, id: int)
    requires LedgerOk(s.queue) && id == s.dataMsgId && id != 0 && id in s.traffic.sent
    requires s.traffic.sent[id].DataMsg? && |s.traffic.sent[id].body| == s.dataMsgLen
    ensures (forall p :: s.queue.released <= p < Ack(s, id).queue.released ==> Covers(s.traffic.sent[id], p))
       <==> (s.traffic.sent[id].start == s.queue.released || s.dataMsgLen == 0 || s.dataMsgLen > |s.queue.bytes|)
  {
    var m, r, n := s.traffic.sent[id], s.queue.released, Ack(s, id).queue.released;
    if 0 < s.dataMsgLen <= |s.queue.bytes| {
      if m.start < r {
        assert !Covers(m, n - 1);
      } else if r < m.start {
        assert !Covers(m, r);
      }
    }
  }
}
