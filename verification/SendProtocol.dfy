/**
  The peek, send, release protocol over the critical queue, with asynchronous acknowledgements,
  failures, a timeout, resends and resets: one state, one function per section of the code that runs
  without interruption, and the session object whose methods are those sections.
 */
module SendProtocol {
  import opened Bytes
  import opened Framing
  import opened Consumption
  import opened LogEncoder

  const READ_BUF := 1024

  /** Data points are numbered by their bytes in the order in which they are encoded. */
  datatype Span = Span(from: nat, len: nat)

  /**
    What a message carried: the queue bytes from position `start` of everything ever written and these data
    points, what there was to say about the boot with this number, or metadata.
   */
  datatype Message = DataMsg(start: nat, body: seq<byte>, points: Span) | BootMsg(boot: nat) | MetaMsg

  /** Where the work-queue task is between two sections that other tasks may interrupt. */
  datatype Phase =
    | Idle
    | AtMeta
    | AtBoot
    | BootSent(result: int)
    | AtData
    | Peeked(start: nat, body: seq<byte>, points: Span)
    | DataSent(start: nat, body: seq<byte>, points: Span, result: int)

  function WindowMsg(ph: Phase): Message
    requires ph.Peeked? || ph.DataSent?
  {
    DataMsg(ph.start, ph.body, ph.points)
  }

  /** The critical queue; `written` and `released` are history: all accepted bytes, and how many left. */
  datatype Ledger = Ledger(bytes: seq<byte>, capacity: nat, written: seq<byte>, released: nat)

  /** History: the messages of this boot by id, those not yet answered, all those known to have arrived. */
  datatype Traffic = Traffic(sent: map<int, Message>, pending: set<int>, delivered: set<Message>)

  /**
    `coreDump` says whether flash holds one. The rest is history: `boot` and `dumpBoot` are the numbers of this boot
    and of the first one after the crash that wrote the latest core dump, `encoded` counts the bytes of data points
    encoded so far.
   */
  datatype State = State(
    queue: Ledger, traffic: Traffic, phase: Phase,
    dataMsgId: int, dataMsgLen: nat, inProgress: bool, timerActive: bool, dataSent: bool,
    bootMsgId: int, metaPending: bool, metaMsgId: int, coreDump: bool, boot: nat, dumpBoot: nat,
    encoded: nat)

  // ---- what one read window yields ----

  /** Bytes of the whole log records with index `meta` at the head of `w`. */
  function ConsumedBytes(w: seq<byte>, meta: byte): (n: nat)
    ensures n <= |w|
    decreases |w|
  {
    if |w| <= LOG_SIZE || w[0] != meta then 0 else 1 + LOG_SIZE + ConsumedBytes(w[1 + LOG_SIZE..], meta)
  }

  function Consumed(q: seq<byte>): (n: nat)
    ensures n <= |q|
  {
    if q == [] then 0 else ConsumedBytes(q[..Min(READ_BUF, |q|)], q[0])
  }

  /** On a queue of log records this is what `EncodeCriticalData` reports. */
  lemma {:induction false} ConsumedIsRun(rs: seq<Record>, n: nat, meta: byte)
    requires AllOfSize(rs, LOG_SIZE) && n <= |FlattenLogs(rs)|
    ensures ConsumedBytes(FlattenLogs(rs)[..n], meta) == Total(rs[..Run(rs, 0, meta, n)], 0)
    decreases |rs|
  {
    var w := FlattenLogs(rs)[..n];
    var k := Run(rs, 0, meta, n);
    if n > LOG_SIZE && rs[0].meta == meta {
      var f, rest := LogFrame(rs[0]), FlattenLogs(rs[1..]);
      assert w == f + rest[..n - |f|] && w[1 + LOG_SIZE..] == rest[..n - |f|];
      ConsumedIsRun(rs[1..], n - |f|, meta);
      TotalTake(rs, 0, k - 1);
    } else if rs != [] && n > 0 {
      assert w[0] == LogFrame(rs[0])[0];
    }
  }

  // ---- atomic sections ----

  /** `esp_diag_data_store_critical_release`: refused without effect when fewer bytes are queued. */
  function Release(q: Ledger, len: nat): Ledger {
    if |q.bytes| < len then q else q.(bytes := q.bytes[len..], released := q.released + len)
  }

  function Append(q: Ledger, rec: seq<byte>): Ledger {
    if q.capacity < |q.bytes| + |rec| then q else q.(bytes := q.bytes + rec, written := q.written + rec)
  }

  /** The transport took a message: under an id, or with synchronous success. */
  function Issue(t: Traffic, id: int, m: Message): Traffic {
    if id > 0 then t.(sent := t.sent[id := m], pending := t.pending + {id})
    else if id == 0 then t.(delivered := t.delivered + {m})
    else t
  }

  /** The transport has answered for a message: it is no longer pending, and it has arrived. */
  function Arrive(t: Traffic, id: int): Traffic {
    t.(pending := t.pending - {id}, delivered := if id in t.sent then t.delivered + {t.sent[id]} else t.delivered)
  }

  function WriteLog(s: State, rec: seq<byte>): State {
    s.(queue := Append(s.queue, rec))
  }

  /** Entry of `insights_periodic_handler`. */
  function Tick(s: State, active: bool): State {
    if !active then s.(inProgress := false)
    else if s.inProgress then s
    else s.(inProgress := true, phase := AtMeta)
  }

  /** `send_insights_meta`, or nothing when the metadata is unchanged. */
  function MetaStep(s: State, send: bool, result: int): State {
    if !send then s.(phase := AtBoot)
    else
      var n := s.(traffic := Issue(s.traffic, result, MetaMsg), phase := AtBoot);
      if result > 0 then n.(metaPending := true, metaMsgId := result) else n
  }

  function BootTransmit(s: State, result: int): State {
    s.(traffic := Issue(s.traffic, result, BootMsg(s.boot)), phase := BootSent(result))
  }

  /** The store of `boot_msg_id` after the transport returned; synchronous success erases the core dump. */
  function BootRegister(s: State): State
    requires s.phase.BootSent?
  {
    var r := s.phase.result;
    s.(bootMsgId := r, coreDump := s.coreDump && r != 0, phase := AtData)
  }

  /**
    Read and encode; with nothing consumed from either ring the round ends here. The consumed data points are
    released in this step already.
   */
  function Peek(s: State, nonCriticalConsumed: nat): State {
    var n := Consumed(s.queue.bytes);
    if n == 0 && nonCriticalConsumed == 0 then s.(inProgress := false, phase := Idle)
    else s.(phase := Peeked(s.queue.released, s.queue.bytes[..n], Span(s.encoded, nonCriticalConsumed)),
            encoded := s.encoded + nonCriticalConsumed)
  }

  function Transmit(s: State, result: int): State
    requires s.phase.Peeked?
  {
    var ph := s.phase;
    s.(traffic := Issue(s.traffic, result, WindowMsg(ph)), phase := DataSent(ph.start, ph.body, ph.points, result))
  }

  /** After the transport returned: register the id, release at once, or give up for this round. */
  function Finish(s: State): State
    requires s.phase.DataSent?
  {
    var r, len := s.phase.result, |s.phase.body|;
    if r > 0 then s.(dataMsgLen := len, dataMsgId := r, timerActive := true, phase := Idle)
    else if r == 0 then s.(queue := Release(s.queue, len), dataSent := true, inProgress := false, phase := Idle)
    else s.(inProgress := false, phase := Idle)
  }

  /** The success event. The id comparison comes in the order data, metadata, boot. */
  function Ack(s: State, id: int): State {
    if id == 0 then s else
      var n := s.(traffic := Arrive(s.traffic, id));
      if id == s.dataMsgId then
        n.(queue := Release(s.queue, s.dataMsgLen), dataSent := true, inProgress := false, timerActive := false)
      else if s.metaPending && id == s.metaMsgId then n.(metaPending := false, dataSent := true)
      else if s.bootMsgId > 0 && id == s.bootMsgId then n.(coreDump := false, bootMsgId := 0)
      else n
  }

  /** The failure event: any failure ends the round, also that of another message. */
  function Fail(s: State, id: int): State {
    s.(traffic := s.traffic.(pending := s.traffic.pending - {id}), timerActive := false, inProgress := false,
       bootMsgId := if s.bootMsgId > 0 && id == s.bootMsgId then -1 else s.bootMsgId)
  }

  function Timeout(s: State): State {
    s.(timerActive := false, inProgress := false, bootMsgId := if s.bootMsgId > 0 then -1 else s.bootMsgId)
  }

  /** `esp_diag_data_discard_data`, which any task may call: the queue is emptied. */
  function DiscardAll(s: State): State {
    s.(queue := Release(s.queue, |s.queue.bytes|))
  }

  /**
    Disabling and enabling again, which the work queue orders after a round. The timer is a new one and the boot
    message is due again; the other variables keep their values, and answers to `missed` came meanwhile.
   */
  function Reenable(s: State, missed: set<int>): State {
    s.(traffic := s.traffic.(pending := s.traffic.pending - missed), timerActive := false, bootMsgId := -1)
  }

  function Forget(t: Traffic): Traffic {
    Traffic(map[], {}, t.delivered)
  }

  /**
    A soft reset keeps the queue and loses everything the session knew, answers still to come included.
    A crash writes a new core dump over whatever flash held.
   */
  function SoftReset(s: State, crash: bool): State {
    State(s.queue, Forget(s.traffic), Idle, 0, 0, false, false, false, -1, false, 0,
          crash || s.coreDump, s.boot + 1, if crash then s.boot + 1 else s.dumpBoot, s.encoded)
  }

  /** Power-on, with a core dump left in flash from before. */
  function Fresh(capacity: nat): State {
    State(Ledger([], capacity, [], 0), Traffic(map[], {}, {}), Idle, 0, 0, false, false, false, -1, false, 0,
          true, 0, 0, 0)
  }

  /**
    The session object of `esp_insights.c`; its methods are the sections above, in place. What the
    work-queue task holds in its locals between two sections is passed to them, and `phase` follows it.
   */
  class Session {
    const capacity: nat
    var queue: seq<byte>
    var dataMsgId: int
    var dataMsgLen: nat
    var inProgress: bool
    var timerActive: bool
    var dataSent: bool
    var bootMsgId: int
    var metaPending: bool
    var metaMsgId: int
    var coreDump: bool
    ghost var phase: Phase
    ghost var written: seq<byte>
    ghost var released: nat
    ghost var traffic: Traffic
    ghost var boot: nat
    ghost var dumpBoot: nat
    ghost var encoded: nat

    ghost function View(): State
      reads this
    {
      State(Ledger(queue, capacity, written, released), traffic, phase, dataMsgId, dataMsgLen, inProgress, timerActive,
            dataSent, bootMsgId, metaPending, metaMsgId, coreDump, boot, dumpBoot, encoded)
    }

    constructor (capacity: nat)
      ensures View() == Fresh(capacity)
    {
      this.capacity, queue, dataMsgId, dataMsgLen := capacity, [], 0, 0;
      inProgress, timerActive, dataSent, bootMsgId := false, false, false, -1;
      metaPending, metaMsgId, coreDump := false, 0, true;
      phase, boot, dumpBoot, encoded := Idle, 0, 0, 0;
      written, released, traffic := [], 0, Traffic(map[], {}, {});
    }

    method CriticalWrite(rec: seq<byte>)
      modifies this`queue, this`written
      ensures View() == WriteLog(old(View()), rec)
    {
      if |queue| + |rec| <= capacity {
        queue := queue + rec;
        written := written + rec;
      }
    }

    method CriticalRelease(len: nat)
      modifies this`queue, this`released
      ensures View() == old(View()).(queue := Release(old(View()).queue, len))
    {
      if |queue| >= len {
        queue := queue[len..];
        released := released + len;
      }
    }

    method PeriodicHandler(active: bool)
      modifies this
      ensures View() == Tick(old(View()), active)
    {
      if !active {
        inProgress := false;
        return;
      }
      if inProgress {
        return;
      }
      inProgress := true;
      phase := AtMeta;
    }

    /** `send_insights_meta` up to its return; `result` is the transport's. */
    method SendMeta(send: bool, result: int)
      modifies this
      ensures View() == MetaStep(old(View()), send, result)
    {
      if send {
        traffic := Issue(traffic, result, MetaMsg);
        if result > 0 {
          metaPending := true;
          metaMsgId := result;
        }
      }
      phase := AtBoot;
    }

    /** The boot message is under way or settled. */
    method SkipBoot()
      modifies this`phase
      ensures View() == old(View()).(phase := AtData)
    {
      phase := AtData;
    }

    /** What a restart without power loss leaves: the retained queue, and flash. */
    method Restart(crash: bool)
      modifies this
      ensures View() == SoftReset(old(View()), crash)
    {
      hide Forget;
      ForgetData();
      bootMsgId, metaPending, metaMsgId := -1, false, 0;
      if crash {
        coreDump := true;
      }
      NextBoot(crash);
    }

    method ForgetData()
      modifies this`dataMsgId, this`dataMsgLen, this`inProgress, this`timerActive, this`dataSent
      ensures View() ==
        old(View()).(dataMsgId := 0, dataMsgLen := 0, inProgress := false, timerActive := false, dataSent := false)
    {
      dataMsgId, dataMsgLen, inProgress, timerActive, dataSent := 0, 0, false, false, false;
    }

    ghost method NextBoot(crash: bool)
      modifies this`phase, this`traffic, this`boot, this`dumpBoot
      ensures View() == old(View()).(phase := Idle, traffic := Forget(old(View()).traffic), boot := old(boot) + 1,
                                     dumpBoot := if crash then old(boot) + 1 else old(dumpBoot))
    {
      phase, traffic, boot := Idle, Forget(traffic), boot + 1;
      dumpBoot := if crash then boot else dumpBoot;
    }

    /** The boot message goes out; its id comes back in `msgId` but is not stored yet. */
    ghost method SendBootTransmit(msgId: int)
      modifies this`phase, this`traffic
      ensures View() == BootTransmit(old(View()), msgId)
    {
      traffic := Issue(traffic, msgId, BootMsg(boot));
      phase := BootSent(msgId);
    }

    /** The critical read and encoding of `send_insights_data`. */
    method SendDataEncode(nonCriticalConsumed: nat) returns (criticalConsumed: nat)
      modifies this`inProgress, this`phase, this`encoded
      ensures View() == Peek(old(View()), nonCriticalConsumed) && criticalConsumed == Consumed(queue)
    {
      criticalConsumed := 0;
      if |queue| > 0 {
        var readBuf := queue[..Min(READ_BUF, |queue|)];
        criticalConsumed := ConsumedBytes(readBuf, queue[0]);
      }
      if criticalConsumed == 0 && nonCriticalConsumed == 0 {
        inProgress := false;
        phase := Idle;
      } else {
        phase := Peeked(released, queue[..criticalConsumed], Span(encoded, nonCriticalConsumed));
        encoded := encoded + nonCriticalConsumed;
      }
    }

    /** The data message goes out; its id comes back in `msgId` but is not registered yet. */
    ghost method SendDataTransmit(msgId: int)
      requires phase.Peeked?
      modifies this`phase, this`traffic
      ensures View() == Transmit(old(View()), msgId)
    {
      traffic := Issue(traffic, msgId, WindowMsg(phase));
      phase := DataSent(phase.start, phase.body, phase.points, msgId);
    }

    method SendDataReturned(msgId: int, criticalConsumed: nat)
      requires phase.DataSent? && phase.result == msgId && |phase.body| == criticalConsumed
      modifies this
      ensures View() == Finish(old(View()))
    {
      phase := Idle;
      if msgId > 0 {
        dataMsgLen := criticalConsumed;
        dataMsgId := msgId;
        timerActive := true;
        return;
      } else if msgId == 0 {
        CriticalRelease(criticalConsumed);
        dataSent := true;
      }
      inProgress := false;
    }

    method DiscardData()
      modifies this`queue, this`released
      ensures View() == DiscardAll(old(View()))
    {
      CriticalRelease(|queue|);
    }

    method DisableAndEnable(ghost missed: set<int>)
      modifies this`traffic, this`timerActive, this`bootMsgId
      ensures View() == Reenable(old(View()), missed)
    {
      traffic := traffic.(pending := traffic.pending - missed);
      timerActive := false;
      bootMsgId := -1;
    }

    method RoundSucceeded()
      modifies this`dataSent, this`inProgress, this`timerActive
      ensures View() == old(View()).(dataSent := true, inProgress := false, timerActive := false)
    {
      dataSent := true;
      inProgress := false;
      timerActive := false;
    }

    method OnSendSuccess(msgId: int)
      modifies this`traffic, this`queue, this`released, this`dataSent, this`inProgress, this`timerActive,
               this`metaPending, this`coreDump, this`bootMsgId
      ensures View() == Ack(old(View()), msgId)
    {
      hide Arrive, Release;
      if msgId == 0 {
        return;
      }
      traffic := Arrive(traffic, msgId);
      if msgId == dataMsgId {
        CriticalRelease(dataMsgLen);
        RoundSucceeded();
      } else if metaPending && msgId == metaMsgId {
        metaPending := false;
        dataSent := true;
      } else if bootMsgId > 0 && bootMsgId == msgId {
        coreDump := false;
        bootMsgId := 0;
      }
    }

    method OnSendFailed(msgId: int)
      modifies this
      ensures View() == Fail(old(View()), msgId)
    {
      traffic := traffic.(pending := traffic.pending - {msgId});
      timerActive := false;
      inProgress := false;
      if bootMsgId > 0 && msgId == bootMsgId {
        bootMsgId := -1;
      }
    }

    method OnTimeout()
      modifies this
      ensures View() == Timeout(old(View()))
    {
      timerActive := false;
      inProgress := false;
      if bootMsgId > 0 {
        bootMsgId := -1;
      }
    }

    method SendBootReturned(msgId: int)
      requires phase == BootSent(msgId)
      modifies this
      ensures View() == BootRegister(old(View()))
    {
      bootMsgId := msgId;
      if bootMsgId == 0 {
        coreDump := false;
      }
      phase := AtData;
    }
  }
}
