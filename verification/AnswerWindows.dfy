/**
  Which answers release only bytes their own message carried, with no hypothesis about the order of events:
  the message of one read window is followed from the read to its answer.
 */
module AnswerWindows {
  import opened SendProtocol
  import opened SendRuns

  /** The step takes bytes out of the queue. */
  predicate Releases(s: State, st: Step) {
    match st
    case AckStep(id) => id != 0 && id == s.dataMsgId && 0 < s.dataMsgLen <= |s.queue.bytes|
    case FinishSend => s.phase.DataSent? && s.phase.result == 0 && 0 < |s.phase.body| <= |s.queue.bytes|
    case DiscardStep => s.queue.bytes != []
    case _ => false
  }

  predicate NoRelease(s: State, steps: seq<Step>)
    requires RunOk(s, steps)
    decreases |steps|
  {
    steps == [] || (!Releases(s, steps[0]) && NoRelease(Next(s, steps[0]), steps[1..]))
  }

  lemma StepReleases(s: State, st: Step)
    requires Enabled(s, st)
    ensures s.queue.released <= Next(s, st).queue.released
    ensures s.queue.released == Next(s, st).queue.released <==> !Releases(s, st)
  {
    hide Next;
    QueueOf(s, st);
  }

  lemma {:induction false} RunReleases(s: State, steps: seq<Step>)
    requires RunOk(s, steps)
    ensures s.queue.released <= After(s, steps).queue.released
    ensures s.queue.released == After(s, steps).queue.released <==> NoRelease(s, steps)
    decreases |steps|
  {
    hide Next, Enabled, Releases;
    if steps != [] {
      StepReleases(s, steps[0]);
      RunReleases(Next(s, steps[0]), steps[1..]);
    }
  }

  /** `id` stands for `m`, wherever the code has noted the length or the bytes that go with it. */
  predicate Tracks(s: State, id: int, m: Message)
    requires m.DataMsg?
  {
    && Named(s.traffic, id, m)
    && (s.dataMsgId == id ==> s.dataMsgLen == |m.body|)
    && (s.phase.DataSent? && s.phase.result == id ==> s.phase.body == m.body)
  }

  lemma SentStays(t: Traffic, id: int, m: Message, other: int, sent: Message)
    requires Named(t, id, m) && Answerable(t, other)
    ensures Named(Issue(t, other, sent), id, m) && (other > 0 ==> other != id)
  {
  }

  lemma TracksKept(s: State, st: Step, id: int, m: Message)
    requires m.DataMsg? && id > 0 && Tracks(s, id, m) && Enabled(s, st) && !st.Reset?
    ensures Tracks(Next(s, st), id, m)
  {
    hide Consumed, Issue, Arrive, Release, Append, Named, Ack;
    match st
    case Meta(_, result) => SentStays(s.traffic, id, m, result, MetaMsg);
    case SendBoot(result) => SentStays(s.traffic, id, m, result, BootMsg(s.boot));
    case Send(result) => SentStays(s.traffic, id, m, result, WindowMsg(s.phase));
    case AckStep(other) => AckTracks(s, other, id, m);
    case FailStep(other) => StillNamed(s.traffic, other, id, m);
    case ReenableStep(_) => StillNamed(s.traffic, 0, id, m);
    case _ =>
  }

  lemma AckTracks(s: State, other: int, id: int, m: Message)
    requires m.DataMsg? && Tracks(s, id, m)
    ensures Tracks(Ack(s, other), id, m)
  {
    hide Arrive, Release, Named;
    StillNamed(s.traffic, other, id, m);
  }

  lemma StillNamed(t: Traffic, other: int, id: int, m: Message)
    requires Named(t, id, m)
    ensures Named(Arrive(t, other), id, m) && Named(t.(pending := t.pending - {other}), id, m)
    ensures forall missed: set<int> :: Named(t.(pending := t.pending - missed), id, m)
  {
  }

  lemma {:induction false} RunTracks(s: State, steps: seq<Step>, id: int, m: Message)
    requires m.DataMsg? && id > 0 && Tracks(s, id, m) && RunOk(s, steps) && NoReset(steps)
    ensures Tracks(After(s, steps), id, m)
    decreases |steps|
  {
    hide Tracks, Next, Enabled;
    if steps != [] {
      TracksKept(s, steps[0], id, m);
      RunTracks(Next(s, steps[0]), steps[1..], id, m);
    }
  }

  /** The task that sends is still between the read and the send. */
  predicate NotSentYet(steps: seq<Step>) {
    forall i :: 0 <= i < |steps| ==> !steps[i].Reset? && !steps[i].Send?
  }

  lemma {:induction false} WindowStays(s: State, steps: seq<Step>)
    requires s.phase.Peeked? && RunOk(s, steps) && NotSentYet(steps)
    ensures After(s, steps).phase == s.phase
    decreases |steps|
  {
    hide Next, Enabled;
    if steps != [] {
      WindowStaysOneStep(s, steps[0]);
      WindowStays(Next(s, steps[0]), steps[1..]);
    }
  }

  lemma WindowStaysOneStep(s: State, st: Step)
    requires s.phase.Peeked? && Enabled(s, st) && !st.Reset? && !st.Send?
    ensures Next(s, st).phase == s.phase
  {
    hide Next;
    PhaseOf(s, st);
  }

  lemma TransmitTracks(s: State, id: int)
    requires IdsOk(s) && s.phase.Peeked? && id > 0 && Answerable(s.traffic, id)
    ensures Tracks(Next(s, Send(id)), id, WindowMsg(s.phase))
    ensures Next(s, Send(id)).queue == s.queue
  {
  }

  /**
    From power-on, with no hypothesis: a window is read (`p`), sent later under `id` (after `wait`), and answered
    later still (after `more`) while `id` is registered. The answer releases only bytes of that window exactly
    when nothing else was released in between, or the window took nothing, or the store refuses the release.
   */
  lemma AnswerExactOverRun(capacity: nat, first: seq<Step>, nonCritical: nat, wait: seq<Step>, id: int, more: seq<Step>)
    requires RunOk(Fresh(capacity), first)
    requires var s := After(Fresh(capacity), first);
      s.phase.AtData? && Peek(s, nonCritical).phase.Peeked? && RunOk(Peek(s, nonCritical), wait)
    requires NotSentYet(wait) && id > 0 && NoReset(more)
    requires var q := After(Peek(After(Fresh(capacity), first), nonCritical), wait);
      Enabled(q, Send(id)) && RunOk(Next(q, Send(id)), more)
    requires var q := After(Peek(After(Fresh(capacity), first), nonCritical), wait);
      var n := After(Next(q, Send(id)), more);
      Enabled(n, AckStep(id)) && n.dataMsgId == id
    ensures var p := Peek(After(Fresh(capacity), first), nonCritical);
      var r := Next(After(p, wait), Send(id));
      var n := After(r, more);
      var m := WindowMsg(p.phase);
      (forall x :: n.queue.released <= x < Ack(n, id).queue.released ==> Covers(m, x))
      <==> ((NoRelease(p, wait) && NoRelease(r, more)) || n.dataMsgLen == 0 || n.dataMsgLen > |n.queue.bytes|)
  {
    hide RunOk, After, Next, IdsOk, Conserved, NoRelease, Tracks, Peek, Ack;
    var s := After(Fresh(capacity), first);
    FreshIsSound(capacity);
    RunConserves(Fresh(capacity), first);
    var p := Peek(s, nonCritical);
    PeekIsStep(s, nonCritical);
    RunConserves(p, wait);
    WindowStays(p, wait);
    var q := After(p, wait);
    var m := WindowMsg(p.phase);
    TransmitTracks(q, id);
    SendKeepsSound(q, id);
    var r := Next(q, Send(id));
    RunConserves(r, more);
    RunTracks(r, more, id, m);
    RunReleases(p, wait);
    RunReleases(r, more);
    AnswerOfTracked(After(r, more), id, m);
  }

  lemma FreshIsSound(capacity: nat)
    ensures IdsOk(Fresh(capacity)) && Conserved(Fresh(capacity))
  {
  }

  lemma PeekIsStep(s: State, nonCritical: nat)
    requires IdsOk(s) && Conserved(s) && s.phase.AtData? && Peek(s, nonCritical).phase.Peeked?
    ensures var p := Peek(s, nonCritical);
      IdsOk(p) && Conserved(p) && p.queue == s.queue && p.phase.start == s.queue.released
  {
    hide IdsOk, Conserved, Consumed;
    IdsKept(s, PeekStep(nonCritical));
    ConservedKept(s, PeekStep(nonCritical));
  }

  lemma SendKeepsSound(s: State, id: int)
    requires IdsOk(s) && Conserved(s) && Enabled(s, Send(id))
    ensures IdsOk(Next(s, Send(id))) && Conserved(Next(s, Send(id)))
  {
    hide IdsOk, Conserved;
    IdsKept(s, Send(id));
    ConservedKept(s, Send(id));
  }

  lemma AnswerOfTracked(n: State, id: int, m: Message)
    requires Conserved(n) && m.DataMsg? && id > 0 && Tracks(n, id, m) && n.dataMsgId == id
    ensures (forall x :: n.queue.released <= x < Ack(n, id).queue.released ==> Covers(m, x))
       <==> (m.start == n.queue.released || n.dataMsgLen == 0 || n.dataMsgLen > |n.queue.bytes|)
  {
    AnswerIsExactWhen(n, id);
  }

  // ---- the release after a synchronous success ----

  lemma FinishIsExactWhen(s: State)
    requires s.phase.DataSent? && s.phase.result == 0
    ensures (forall x :: s.queue.released <= x < Finish(s).queue.released ==> Covers(WindowMsg(s.phase), x))
       <==> (s.phase.start == s.queue.released || s.phase.body == [] || |s.phase.body| > |s.queue.bytes|)
  {
    var m, r, n := WindowMsg(s.phase), s.queue.released, Finish(s).queue.released;
    if 0 < |m.body| <= |s.queue.bytes| {
      if m.start < r {
        assert !Covers(m, n - 1);
      } else if r < m.start {
        assert !Covers(m, r);
      }
    }
  }

  /** The task that sends is still between the send and what follows it. */
  predicate NotFinishedYet(steps: seq<Step>) {
    forall i :: 0 <= i < |steps| ==> !steps[i].Reset? && !steps[i].FinishSend?
  }

  lemma {:induction false} SentWindowStays(s: State, steps: seq<Step>)
    requires s.phase.DataSent? && RunOk(s, steps) && NotFinishedYet(steps)
    ensures After(s, steps).phase == s.phase
    decreases |steps|
  {
    hide Next, Enabled;
    if steps != [] {
      SentWindowStaysOneStep(s, steps[0]);
      SentWindowStays(Next(s, steps[0]), steps[1..]);
    }
  }

  lemma SentWindowStaysOneStep(s: State, st: Step)
    requires s.phase.DataSent? && Enabled(s, st) && !st.Reset? && !st.FinishSend?
    ensures Next(s, st).phase == s.phase
  {
    hide Next;
    PhaseOf(s, st);
  }

  lemma SynchronousSend(s: State)
    requires s.phase.Peeked? && Enabled(s, Send(0))
    ensures var n := Next(s, Send(0));
      n.queue == s.queue && n.phase.DataSent? && n.phase.result == 0 && WindowMsg(n.phase) == WindowMsg(s.phase)
  {
  }

  /**
    From power-on, with no hypothesis: a window is read (`p`), sent with synchronous success later (after `wait`), and
    released later still (after `more`). The release removes only bytes of that window exactly when nothing else was
    removed in between, or the window took nothing, or the store refuses the release.
   */
  lemma FinishExactOverRun(capacity: nat, first: seq<Step>, nonCritical: nat, wait: seq<Step>, more: seq<Step>)
    requires RunOk(Fresh(capacity), first)
    requires var s := After(Fresh(capacity), first);
      s.phase.AtData? && Peek(s, nonCritical).phase.Peeked? && RunOk(Peek(s, nonCritical), wait)
    requires NotSentYet(wait) && NotFinishedYet(more)
    requires var q := After(Peek(After(Fresh(capacity), first), nonCritical), wait);
      Enabled(q, Send(0)) && RunOk(Next(q, Send(0)), more)
    ensures var p := Peek(After(Fresh(capacity), first), nonCritical);
      var r := Next(After(p, wait), Send(0));
      var n := After(r, more);
      && n.phase.DataSent? && n.phase.result == 0
      && ((forall x :: n.queue.released <= x < Finish(n).queue.released ==> Covers(WindowMsg(p.phase), x))
          <==> ((NoRelease(p, wait) && NoRelease(r, more)) || p.phase.body == [] || |p.phase.body| > |n.queue.bytes|))
  {
    hide RunOk, After, Next, IdsOk, Conserved, NoRelease, Peek, Finish;
    var s := After(Fresh(capacity), first);
    FreshIsSound(capacity);
    RunConserves(Fresh(capacity), first);
    var p := Peek(s, nonCritical);
    PeekIsStep(s, nonCritical);
    WindowStays(p, wait);
    SynchronousSend(After(p, wait));
    var r := Next(After(p, wait), Send(0));
    SentWindowStays(r, more);
    RunReleases(p, wait);
    RunReleases(r, more);
    FinishIsExactWhen(After(r, more));
  }
}
