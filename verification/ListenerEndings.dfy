/**
 How listening ends in the client: a listener is told that the stream is over only if it is, and that it failed
 only if it did; the failure of the stream reaches everyone who was listening.
*/
module ListenerEndings {
  import opened Wrappers
  import opened EventChannel
  import opened ClientDemux
  import opened ClientProtocol
  import opened ClientListeners
  import opened ClientEndings

  /** Every end of a listener has its cause, and as long as it reads an open channel it is subscribed. */
  ghost predicate EndsHeard(k: Listener, c: Channel, published: nat, over: bool, failed: bool, subscribed: bool) {
    && |c.values| <= c.capacity
    && k.phase != CutShort && (k.phase == Finished ==> over)
    && (Reading(k.phase) && !c.closed ==> subscribed) && (subscribed ==> Reading(k.phase))
    && EndingOk(k.phase, c, false, over, failed, Excess(|k.seen|, c, published))
  }

  ghost predicate ListenerEnds(s: System, id: ChannelId) {
    id in s.listeners && id in s.demux.listening.channels && s.listeners[id].start <= |s.history| ==>
      && s.demux.listening.channels[id].capacity == s.demux.capacity
      && EndsHeard(s.listeners[id], s.demux.listening.channels[id], |s.history| - s.listeners[id].start,
                   Over(s.demux), s.demux.streamFailed, id in s.demux.listening.subscribers)
  }

  // ---------- One listener and its channel ----------

  lemma PushEndsHeard(k: Listener, c: Channel, published: seq<Event>, event: Event, over: bool, failed: bool)
    requires Hears(k, c, published, true) && EndsHeard(k, c, |published|, over, failed, true)
    ensures var p := Push(c, event);
      && p.capacity == c.capacity && EndsHeard(k, p, |published| + 1, over, failed, !p.closed)
  {
    if !c.closed {
      if c.waiters == 0 && |c.values| >= c.capacity {
        OverflowEndsHeard(k, c, published, event, over, failed);
      } else {
        RoomEndsHeard(k, c, published, event, over, failed);
      }
    }
  }

  lemma RoomEndsHeard(k: Listener, c: Channel, published: seq<Event>, event: Event, over: bool, failed: bool)
    requires Hears(k, c, published, true) && EndsHeard(k, c, |published|, over, failed, true) && !c.closed
    requires c.waiters > 0 || |c.values| < c.capacity
    ensures var p := Push(c, event);
      && !p.closed && p.capacity == c.capacity && EndsHeard(k, p, |published| + 1, over, failed, true)
  {
    assert c.waiters > 0 ==> Push(c, event).inbox == [Value(event)];
  }

  lemma OverflowEndsHeard(k: Listener, c: Channel, published: seq<Event>, event: Event, over: bool, failed: bool)
    requires Hears(k, c, published, true) && EndsHeard(k, c, |published|, over, failed, true) && !c.closed
    requires c.waiters == 0 && |c.values| >= c.capacity
    ensures var p := Push(c, event);
      && p.closed && p.capacity == c.capacity && EndsHeard(k, p, |published| + 1, over, failed, false)
  {
    assert Repeat(Rejected(Overflow), 0) == [];
    assert published == k.seen + Delivered(c.inbox) + c.values;
  }

  lemma StopEndsHeard(k: Listener, c: Channel, fails: bool, published: nat, over: bool, failed: bool)
    requires EndsHeard(k, c, published, over, failed, true) && (if fails then failed else over)
    ensures var p := if fails then Fail(c, StreamFailure) else Complete(c);
      && p.capacity == c.capacity && EndsHeard(k, p, published, over, failed, false)
  {
    if !c.closed {
      OpenStops(k.phase, c, fails, false, over, failed,
                Excess(|k.seen|, if fails then Fail(c, StreamFailure) else Complete(c), published));
    }
  }

  /** Nothing takes a cause away. */
  lemma EndsHeardStays(k: Listener, c: Channel, published: nat, over: bool, failed: bool, more: nat, over': bool, failed': bool,
                       subscribed: bool)
    requires EndsHeard(k, c, published, over, failed, subscribed)
    requires published <= more && (over ==> over') && (failed ==> failed')
    ensures EndsHeard(k, c, more, over', failed', subscribed)
  {
  }

  /** A listener that takes what it was handed, or is told how listening ends. */
  lemma TakeEndsHeard(d: Demux, id: ChannelId, k: Listener, published: nat)
    requires id in d.listening.channels && |d.listening.channels[id].inbox| == 1 && k.phase == Awaiting
    requires EndsHeard(k, d.listening.channels[id], published, Over(d), d.streamFailed, id in d.listening.subscribers)
    ensures var (listening, after) := ListenerTakes(d, id, k);
      && id in listening.channels && listening.channels[id].capacity == d.listening.channels[id].capacity
      && EndsHeard(after, listening.channels[id], published, Over(d), d.streamFailed, id in listening.subscribers)
  {
    var c := d.listening.channels[id];
    assert Taken(c).inbox == [];
    if c.inbox[0].Value? {
      TakenEnds(c, |k.seen|, false, Over(d), d.streamFailed, published);
    } else {
      assert Repeat(Done, 0) == [] && Delivered(c.inbox) == [];
    }
  }

  // ---------- Every step ----------

  lemma PublishKeepsEnds(s: System, event: Event, id: ChannelId)
    requires ListenerOk(s, id) && ListenerEnds(s, id) && Enabled(s, PublishEvent(event)) && id in s.listeners
    ensures ListenerEnds(Apply(s, PublishEvent(event)), id)
  {
    var k, c, heard := s.listeners[id], s.demux.listening.channels[id], Broadcast(s.demux, event);
    var published := s.history[k.start..];
    PublishRunLeaves(heard, event);
    FlagsStay(heard, event);
    if id in s.demux.listening.subscribers {
      PushEndsHeard(k, c, published, event, Over(s.demux), s.demux.streamFailed);
    } else {
      EndsHeardStays(k, c, |published|, Over(s.demux), s.demux.streamFailed, |published| + 1,
                     Over(s.demux), s.demux.streamFailed, false);
    }
  }

  lemma EndKeepsEnds(s: System, after: Demux, id: ChannelId)
    requires ListenerOk(s, id) && ListenerEnds(s, id) && EndsStream(s, after) && id in s.listeners
    ensures ListenerEnds(s.(demux := after), id)
  {
    var k, c := s.listeners[id], s.demux.listening.channels[id];
    var n := |s.history| - k.start;
    EndsHeardStays(k, c, n, Over(s.demux), s.demux.streamFailed, n, Over(after), after.streamFailed,
                   id in s.demux.listening.subscribers);
    if id in s.demux.listening.subscribers {
      StopEndsHeard(k, c, after.streamFailed && after == FailStream(s.demux), n, Over(after), after.streamFailed);
    }
  }

  lemma ListenEnds(s: System, id: ChannelId)
    requires Enabled(s, Listen(id))
    ensures ListenerEnds(Apply(s, Listen(id)), id)
  {
    assert Repeat(Done, 0) == [] && Repeat(Rejected(StreamFailure), 0) == [];
  }

  lemma LeaveEndsHeard(k: Listener, c: Channel, published: nat, over: bool, failed: bool, subscribed: bool)
    requires EndsHeard(k, c, published, over, failed, subscribed) && Settled(k.phase, c) && k.phase == Idle
    ensures EndsHeard(k.(phase := Left), Complete(c), published, over, failed, false)
  {
    assert Repeat(Done, 0) == [];
  }

  lemma NextEndsHeard(k: Listener, c: Channel, published: nat, over: bool, failed: bool, subscribed: bool)
    requires EndsHeard(k, c, published, over, failed, subscribed) && Settled(k.phase, c) && k.phase == Idle
    ensures Next(c).capacity == c.capacity
    ensures EndsHeard(k.(phase := Awaiting), Next(c), published, over, failed, subscribed)
  {
    NextEnds(|k.seen|, c, false, published, over, failed);
  }

  lemma OwnStepKeepsEnds(s: System, step: Step)
    requires OfListener(step) && Enabled(s, step) && ListenerOk(s, step.id) && ListenerEnds(s, step.id)
    ensures ListenerEnds(Apply(s, step), step.id)
  {
    var id, over, failed := step.id, Over(s.demux), s.demux.streamFailed;
    if step.Listen? {
      ListenEnds(s, id);
    } else {
      var k, c := s.listeners[id], s.demux.listening.channels[id];
      var n := |s.history| - k.start;
      match step
      case ListenerCallsNext(_) => NextEndsHeard(k, c, n, over, failed, id in s.demux.listening.subscribers);
      case ListenerResumes(_) => TakeEndsHeard(s.demux, id, k, n);
      case ListenerLeaves(_) => LeaveEndsHeard(k, c, n, over, failed, id in s.demux.listening.subscribers);
    }
  }

  lemma StrangerKeepsEnds(s: System, step: Step, id: ChannelId)
    requires OfListener(step) && Enabled(s, step) && step.id != id && ListenerEnds(s, id)
    ensures ListenerEnds(Apply(s, step), id)
  {
  }

  /** The other steps only add causes. */
  lemma OtherStepKeepsFlags(s: System, step: Step)
    requires Enabled(s, step) && !OfListener(step)
    requires !step.PublishEvent? && !step.StreamEnds? && !step.StreamFails? && !step.CloseEnds?
    ensures var t := Apply(s, step);
      && t.demux.capacity == s.demux.capacity && t.demux.streamFailed == s.demux.streamFailed
      && (Over(s.demux) ==> Over(t.demux))
  {
    if step.Resume? {
      ResumeKeepsFlags(s, step.id);
    }
  }

  lemma ResumeKeepsFlags(s: System, id: ChannelId)
    requires Enabled(s, Resume(id))
    ensures var t := ApplyResume(s, id);
      && t.demux.capacity == s.demux.capacity && t.demux.streamFailed == s.demux.streamFailed
      && t.demux.streamEnded == s.demux.streamEnded && t.demux.closed == s.demux.closed
  {
    var taken := s.demux.(channels := s.demux.channels[id := Taken(s.demux.channels[id])]);
    LeavingKeepsFlags(taken, s.consumers[id].run, id, true);
    LeavingKeepsFlags(taken, s.consumers[id].run, id, false);
  }

  lemma LeavingKeepsFlags(d: Demux, run: RunId, id: ChannelId, terminalSeen: bool)
    requires id in d.channels
    ensures var t := UnsubscribeRun(d, run, id, terminalSeen);
      && t.capacity == d.capacity && t.streamFailed == d.streamFailed
      && t.streamEnded == d.streamEnded && t.closed == d.closed
  {
  }

  lemma StepKeepsListenerEnds(s: System, step: Step, id: ChannelId)
    requires ListenerOk(s, id) && ListenerEnds(s, id) && Enabled(s, step)
    ensures ListenerEnds(Apply(s, step), id)
  {
    if OfListener(step) {
      if step.id == id {
        OwnStepKeepsEnds(s, step);
      } else {
        StrangerKeepsEnds(s, step, id);
      }
    } else if id in s.listeners {
      if step.PublishEvent? {
        PublishKeepsEnds(s, step.event, id);
      } else if step.StreamEnds? || step.StreamFails? || step.CloseEnds? {
        EndKeepsEnds(s, Apply(s, step).demux, id);
      } else {
        OtherStepLeaves(s, step);
        OtherStepKeepsFlags(s, step);
      }
    } else {
      NoNewListener(s, step, id);
    }
  }

  lemma NoNewListener(s: System, step: Step, id: ChannelId)
    requires Enabled(s, step) && !OfListener(step) && id !in s.listeners
    ensures id !in Apply(s, step).listeners
  {
  }

  lemma {:induction false} RunKeepsListenerEnds(s: System, steps: seq<Step>, id: ChannelId)
    requires ListenerOk(s, id) && ListenerEnds(s, id) && Possible(s, steps)
    ensures ListenerOk(RunSteps(s, steps), id) && ListenerEnds(RunSteps(s, steps), id)
    decreases |steps|
  {
    if steps != [] {
      StepKeepsListener(s, steps[0], id);
      StepKeepsListenerEnds(s, steps[0], id);
      RunKeepsListenerEnds(Apply(s, steps[0]), steps[1..], id);
    }
  }

  /**
   In every interleaving a listener is told that the stream is over only if it ended or the client was closed,
   that it failed only if it did, and that it fell behind only if more was published since it subscribed than
   it has seen and its channel holds.  As long as it reads an open channel it is subscribed.
  */
  lemma ListeningEndsWithCause(capacity: nat, steps: seq<Step>, id: ChannelId)
    requires Possible(Initial(capacity), steps) && id in RunSteps(Initial(capacity), steps).listeners
    ensures var s := RunSteps(Initial(capacity), steps);
      var k := s.listeners[id];
      && id in s.demux.listening.channels
      && (k.phase == Finished ==> s.demux.streamEnded || s.demux.closed)
      && (k.phase == Errored(StreamFailure) ==> s.demux.streamFailed)
      && (k.phase == Errored(Overflow) ==> |s.history| > k.start + |k.seen| + s.demux.capacity)
      && (k.phase in {Idle, Awaiting} && !s.demux.listening.channels[id].closed ==> id in s.demux.listening.subscribers)
  {
    RunKeepsListenerEnds(Initial(capacity), steps, id);
  }

  // ---------- A failure reaches everyone ----------

  ghost predicate DoomedListener(s: System, id: ChannelId, handed: seq<Outcome>) {
    && s.demux.streamFailed && id in s.listeners && id in s.demux.listening.channels
    && Failed(s.listeners[id].phase, s.demux.listening.channels[id], handed)
  }

  ghost predicate AtMostOne(handed: seq<Outcome>) {
    handed == [] || (|handed| == 1 && handed[0].Value?)
  }

  lemma FailureIsHeard(s: System, id: ChannelId)
    requires ListenerOk(s, id) && ListenerEnds(s, id) && Enabled(s, StreamFails) && id in s.listeners
    requires id in s.demux.listening.subscribers && !s.demux.listening.channels[id].closed
    ensures var c := s.demux.listening.channels[id];
      && AtMostOne(c.inbox) && DoomedListener(Apply(s, StreamFails), id, c.inbox)
      && (c.waiters > 0 ==> Apply(s, StreamFails).demux.listening.channels[id].inbox == [Rejected(StreamFailure)])
  {
    FailsReader(s.listeners[id].phase, s.demux.listening.channels[id]);
  }

  lemma DoomedListenerStays(s: System, step: Step, id: ChannelId, handed: seq<Outcome>)
    requires Enabled(s, step) && DoomedListener(s, id, handed) && AtMostOne(handed)
    ensures DoomedListener(Apply(s, step), id, handed)
  {
    if OfListener(step) {
      DoomedListenerSteps(s, step, id, handed);
    } else if !step.CloseEnds? {
      OtherStepLeaves(s, step);
      OtherStepKeepsFlags(s, step);
    }
  }

  lemma DoomedListenerSteps(s: System, step: Step, id: ChannelId, handed: seq<Outcome>)
    requires OfListener(step) && Enabled(s, step) && DoomedListener(s, id, handed) && AtMostOne(handed)
    ensures DoomedListener(Apply(s, step), id, handed)
  {
    if step == ListenerResumes(id) {
      assert Taken(s.demux.listening.channels[id]).inbox == [];
    }
  }

  lemma {:induction false} DoomedListenerForGood(s: System, steps: seq<Step>, id: ChannelId, handed: seq<Outcome>)
    requires Possible(s, steps) && DoomedListener(s, id, handed) && AtMostOne(handed)
    ensures DoomedListener(RunSteps(s, steps), id, handed)
    decreases |steps|
  {
    if steps != [] {
      DoomedListenerStays(s, steps[0], id, handed);
      DoomedListenerForGood(Apply(s, steps[0]), steps[1..], id, handed);
    }
  }

  /**
   When the stream fails, everyone who listens on an open channel and waits is rejected at once.  Whatever
   happens then, nobody of them is told that the stream came to its end: every later read is rejected, unless it
   had been answered with an event before, and listening ends with the failure, or by leaving.
  */
  lemma FailureReachesListeners(capacity: nat, before: seq<Step>, after: seq<Step>, id: ChannelId)
    requires Possible(Initial(capacity), before)
    requires var s := RunSteps(Initial(capacity), before);
      && Enabled(s, StreamFails) && Possible(Apply(s, StreamFails), after) && id in s.listeners
      && id in s.demux.listening.subscribers && id in s.demux.listening.channels
      && !s.demux.listening.channels[id].closed
    ensures var s := RunSteps(Initial(capacity), before);
      var failed, t := Apply(s, StreamFails), RunSteps(Apply(s, StreamFails), after);
      && id in failed.demux.listening.channels && id in t.demux.listening.channels && id in t.listeners
      && FailureHeld(s.demux.listening.channels[id], failed.demux.listening.channels[id],
                     t.listeners[id].phase, t.demux.listening.channels[id])
  {
    var s := RunSteps(Initial(capacity), before);
    RunKeepsListenerEnds(Initial(capacity), before, id);
    FailureIsHeard(s, id);
    DoomedListenerForGood(Apply(s, StreamFails), after, id, s.demux.listening.channels[id].inbox);
  }
}
