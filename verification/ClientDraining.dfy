/**
 What a client's readers still get when the stream is over: everything that was published before, and then the end.
*/
module ClientDraining {
  import opened Wrappers
  import opened EventChannel
  import opened ClientDemux
  import opened ClientProtocol
  import opened ClientListeners
  import opened ClientEndings
  import opened ListenerEndings

  /** The reader of a completed channel: what it has seen, was handed and still has in the channel is all there was. */
  ghost predicate Draining(phase: Phase, seen: seq<Event>, c: Channel, published: seq<Event>) {
    && c.closed && c.failure.None? && c.waiters == 0
    && match phase
       case Idle => c.inbox == [] && seen + c.values == published
       case Awaiting =>
         || (c.inbox == [Done] && c.values == [] && seen == published)
         || exists event :: c.inbox == [Value(event)] && seen + [event] + c.values == published
       case Left => c.inbox == []
       case _ => c.inbox == [] && c.values == [] && seen == published
  }

  lemma CompletionDrains(phase: Phase, seen: seq<Event>, c: Channel, published: seq<Event>)
    requires Reading(phase) && Settled(phase, c) && !c.closed && c.failure.None?
    requires forall i :: 0 <= i < |c.inbox| ==> c.inbox[i].Value?
    requires seen + Delivered(c.inbox) + c.values == published
    ensures Draining(phase, seen, Complete(c), published)
    ensures c.waiters > 0 ==> Complete(c).inbox == [Done]
  {
    RepeatOne(Done);
    assert Repeat(Done, 0) == [];
    if c.inbox != [] {
      assert c.inbox == [Value(c.inbox[0].event)];
    }
  }

  /** The next read gives the next event, or the end if there is none. */
  ghost predicate ReadsOn(seen: seq<Event>, c: Channel, published: seq<Event>) {
    && seen <= published
    && Next(c).inbox == [if |seen| < |published| then Value(published[|seen|]) else Done]
  }

  lemma DrainReadsOn(seen: seq<Event>, c: Channel, published: seq<Event>)
    requires Draining(Idle, seen, c, published)
    ensures ReadsOn(seen, c, published) && Draining(Awaiting, seen, Next(c), published)
  {
    if c.values != [] {
      assert published[|seen|] == c.values[0];
      assert Next(c).inbox == [Value(c.values[0])];
      assert seen + [c.values[0]] + c.values[1..] == published;
    }
  }

  lemma DrainTakes(seen: seq<Event>, c: Channel, published: seq<Event>)
    requires Draining(Awaiting, seen, c, published)
    ensures c.inbox != []
    ensures c.inbox[0].Value? ==> Draining(Idle, seen + [c.inbox[0].event], Taken(c), published)
    ensures !c.inbox[0].Value? ==> c.inbox[0] == Done && Draining(CutShort, seen, Taken(c), published)
  {
    assert Taken(c).inbox == [];
  }

  // ---------- Consumers ----------

  ghost predicate ConsumerDrains(s: System, id: ChannelId, published: seq<Event>) {
    && id in s.consumers && id in s.demux.channels
    && !Subscribed(s.demux, s.consumers[id].run, id)
    && Draining(s.consumers[id].phase, s.consumers[id].seen, s.demux.channels[id], published)
    && s.consumers[id].phase in {Idle, Awaiting, CutShort, Left}
    && !HasTerminal(published)
  }

  ghost predicate IsEnd(step: Step) {
    step.StreamEnds? || step.CloseEnds?
  }

  lemma EndArrives(s: System, step: Step, id: ChannelId)
    requires EndsInv(s) && Enabled(s, step) && IsEnd(step)
    requires id in s.consumers && Subscribed(s.demux, s.consumers[id].run, id)
    ensures ConsumerDrains(Apply(s, step), id, EventsOf(s.history, s.consumers[id].run))
    ensures id in s.demux.channels && id in Apply(s, step).demux.channels
    ensures s.demux.channels[id].waiters > 0 ==> Apply(s, step).demux.channels[id].inbox == [Done]
  {
    var k, c := s.consumers[id], s.demux.channels[id];
    assert ConsumerOk(s, id) && ConsumerEnds(s, id);
    SubscribedIsOnly(s, id);
    CompletionDrains(k.phase, k.seen, c, EventsOf(s.history, k.run));
  }

  /** A later event of the run, or a later end, does not reach a consumer that is no longer subscribed. */
  lemma PublishPasses(s: System, event: Event, id: ChannelId)
    requires Inv(s) && id in s.consumers && !Subscribed(s.demux, s.consumers[id].run, id)
    requires Enabled(s, PublishEvent(event))
    ensures SameFor(s, Apply(s, PublishEvent(event)), id)
  {
    var heard := s.(demux := Broadcast(s.demux, event));
    assert ConsumerOk(s, id) && RunOk(s, s.consumers[id].run);
    ListenersApart(s, heard);
    InvDelivers(heard, event);
    assert ConsumerOk(heard, id);
    OtherEventAt(heard, event, id);
  }

  lemma EndPasses(s: System, after: Demux, id: ChannelId)
    requires Inv(s) && id in s.consumers && !Subscribed(s.demux, s.consumers[id].run, id) && EndsStream(s, after)
    ensures SameFor(s, s.(demux := after), id)
  {
    assert ConsumerOk(s, id);
    SubscribedIsOnly(s, id);
  }

  lemma OwnStepDrains(s: System, step: Step, id: ChannelId, published: seq<Event>)
    requires Inv(s) && Enabled(s, step) && ConsumerDrains(s, id, published)
    requires (step.CallNext? || step.Resume? || step.Leave?) && step.id == id
    ensures ConsumerDrains(Apply(s, step), id, published)
  {
    match step
    case CallNext(_) => DrainReadsOn(s.consumers[id].seen, s.demux.channels[id], published);
    case Resume(_) => ResumeDrains(s, id, published);
    case Leave(_) => LeavingKeepsOthers(s.demux, s.consumers[id].run, id, false);
  }

  lemma ResumeDrains(s: System, id: ChannelId, published: seq<Event>)
    requires Inv(s) && Enabled(s, Resume(id)) && ConsumerDrains(s, id, published)
    ensures ConsumerDrains(Apply(s, Resume(id)), id, published)
  {
    var k, c := s.consumers[id], s.demux.channels[id];
    DrainTakes(k.seen, c, published);
    if c.inbox[0].Value? {
      assert published[|k.seen|] == c.inbox[0].event;
    } else {
      var taken := s.demux.(channels := s.demux.channels[id := Taken(c)]);
      LeavingKeepsOthers(taken, k.run, id, false);
    }
  }

  lemma DrainingStays(s: System, step: Step, id: ChannelId, published: seq<Event>)
    requires Inv(s) && Enabled(s, step) && ConsumerDrains(s, id, published)
    ensures ConsumerDrains(Apply(s, step), id, published)
  {
    if step.PublishEvent? {
      PublishPasses(s, step.event, id);
    } else if step.StreamEnds? || step.StreamFails? || step.CloseEnds? {
      EndPasses(s, Apply(s, step).demux, id);
    } else if (step.CallNext? || step.Resume? || step.Leave?) && step.id == id {
      OwnStepDrains(s, step, id, published);
    } else {
      OtherStepAt(s, step, id);
    }
  }

  lemma {:induction false} DrainsForGood(s: System, steps: seq<Step>, id: ChannelId, published: seq<Event>)
    requires Inv(s) && Possible(s, steps) && ConsumerDrains(s, id, published)
    ensures ConsumerDrains(RunSteps(s, steps), id, published)
    decreases |steps|
  {
    if steps != [] {
      StepKeeps(s, steps[0]);
      DrainingStays(s, steps[0], id, published);
      DrainsForGood(Apply(s, steps[0]), steps[1..], id, published);
    }
  }

  /** Long after the end: nothing was lost, and no error came up. */
  ghost predicate ReadsToTheEnd(phase: Phase, seen: seq<Event>, c: Channel, published: seq<Event>) {
    match phase
    case Idle => ReadsOn(seen, c, published)
    case Awaiting => c.inbox != [] && c.inbox[0] == if |seen| < |published| then Value(published[|seen|]) else Done
    case CutShort => seen == published
    case Left => true
    case _ => false
  }

  lemma DrainsToTheEnd(phase: Phase, seen: seq<Event>, c: Channel, published: seq<Event>)
    requires Draining(phase, seen, c, published) && phase in {Idle, Awaiting, CutShort, Left}
    ensures ReadsToTheEnd(phase, seen, c, published)
  {
    match phase
    case Idle => DrainReadsOn(seen, c, published);
    case Awaiting =>
      if c.inbox != [Done] {
        var event :| c.inbox == [Value(event)] && seen + [event] + c.values == published;
        assert published[|seen|] == event;
      }
    case _ =>
  }

  /**
   When the stream ends, or the client is closed, a consumer that follows its run and waits is told so at once; every
   other one is still given every event its run had published, in order, before it is told.
  */
  lemma EndReachesConsumers(capacity: nat, before: seq<Step>, step: Step, after: seq<Step>, id: ChannelId)
    requires Possible(Initial(capacity), before) && IsEnd(step)
    requires var s := RunSteps(Initial(capacity), before);
      && Enabled(s, step) && Possible(Apply(s, step), after)
      && id in s.consumers && Subscribed(s.demux, s.consumers[id].run, id)
    ensures var s := RunSteps(Initial(capacity), before);
      var ended, t := Apply(s, step), RunSteps(Apply(s, step), after);
      && id in s.demux.channels && id in ended.demux.channels && id in t.demux.channels && id in t.consumers
      && (s.demux.channels[id].waiters > 0 ==> ended.demux.channels[id].inbox == [Done])
      && ReadsToTheEnd(t.consumers[id].phase, t.consumers[id].seen, t.demux.channels[id],
                       EventsOf(s.history, s.consumers[id].run))
  {
    var s := RunSteps(Initial(capacity), before);
    EndsKept(Initial(capacity), before);
    ReadOut(s, step, after, id);
  }

  lemma ReadOut(s: System, step: Step, after: seq<Step>, id: ChannelId)
    requires EndsInv(s) && Enabled(s, step) && IsEnd(step) && Possible(Apply(s, step), after)
    requires id in s.consumers && Subscribed(s.demux, s.consumers[id].run, id)
    ensures var ended, t := Apply(s, step), RunSteps(Apply(s, step), after);
      && id in s.demux.channels && id in ended.demux.channels && id in t.demux.channels && id in t.consumers
      && (s.demux.channels[id].waiters > 0 ==> ended.demux.channels[id].inbox == [Done])
      && ReadsToTheEnd(t.consumers[id].phase, t.consumers[id].seen, t.demux.channels[id],
                       EventsOf(s.history, s.consumers[id].run))
  {
    var t, published := RunSteps(Apply(s, step), after), EventsOf(s.history, s.consumers[id].run);
    EndArrives(s, step, id);
    StepKeeps(s, step);
    DrainsForGood(Apply(s, step), after, id, published);
    DrainsToTheEnd(t.consumers[id].phase, t.consumers[id].seen, t.demux.channels[id], published);
  }

  // ---------- Listeners ----------

  ghost predicate ListenerDrains(s: System, id: ChannelId, published: seq<Event>) {
    && id in s.listeners && id in s.demux.listening.channels && id !in s.demux.listening.subscribers
    && Draining(s.listeners[id].phase, s.listeners[id].seen, s.demux.listening.channels[id], published)
    && s.listeners[id].phase in {Idle, Awaiting, Finished, Left}
  }

  lemma EndIsHeard(s: System, step: Step, id: ChannelId)
    requires ListenerOk(s, id) && ListenerEnds(s, id) && Enabled(s, step) && IsEnd(step) && id in s.listeners
    requires id in s.demux.listening.subscribers && !s.demux.listening.channels[id].closed
    ensures ListenerDrains(Apply(s, step), id, s.history[s.listeners[id].start..])
    ensures s.demux.listening.channels[id].waiters > 0 ==> Apply(s, step).demux.listening.channels[id].inbox == [Done]
  {
    var k, c := s.listeners[id], s.demux.listening.channels[id];
    CompletionDrains(k.phase, k.seen, c, s.history[k.start..]);
  }

  lemma ListenerStepDrains(s: System, step: Step, id: ChannelId, published: seq<Event>)
    requires OfListener(step) && Enabled(s, step) && ListenerDrains(s, id, published)
    ensures ListenerDrains(Apply(s, step), id, published)
  {
    var k, c := s.listeners[id], s.demux.listening.channels[id];
    if step == ListenerCallsNext(id) {
      DrainReadsOn(k.seen, c, published);
    } else if step == ListenerResumes(id) {
      ListenerTakesDrained(s, id, published);
    }
  }

  lemma ListenerTakesDrained(s: System, id: ChannelId, published: seq<Event>)
    requires Enabled(s, ListenerResumes(id)) && ListenerDrains(s, id, published)
    ensures ListenerDrains(Apply(s, ListenerResumes(id)), id, published)
  {
    DrainTakes(s.listeners[id].seen, s.demux.listening.channels[id], published);
  }

  lemma ListenerDrainingStays(s: System, step: Step, id: ChannelId, published: seq<Event>)
    requires Enabled(s, step) && ListenerDrains(s, id, published)
    ensures ListenerDrains(Apply(s, step), id, published)
  {
    if OfListener(step) {
      ListenerStepDrains(s, step, id, published);
    } else if step.PublishEvent? {
      PublishRunLeaves(Broadcast(s.demux, step.event), step.event);
    } else if !IsEnd(step) && !step.StreamFails? {
      OtherStepLeaves(s, step);
    }
  }

  lemma {:induction false} ListenerDrainsForGood(s: System, steps: seq<Step>, id: ChannelId, published: seq<Event>)
    requires Possible(s, steps) && ListenerDrains(s, id, published)
    ensures ListenerDrains(RunSteps(s, steps), id, published)
    decreases |steps|
  {
    if steps != [] {
      ListenerDrainingStays(s, steps[0], id, published);
      ListenerDrainsForGood(Apply(s, steps[0]), steps[1..], id, published);
    }
  }

  /** A listener that has come to the end has seen it all; until then it reads on. */
  ghost predicate HearsToTheEnd(phase: Phase, seen: seq<Event>, c: Channel, published: seq<Event>) {
    if phase == Finished then seen == published
    else phase != CutShort && ReadsToTheEnd(phase, seen, c, published)
  }

  /** The same for those who listen: they are given everything published since they subscribed, and then the end. */
  lemma EndReachesListeners(capacity: nat, before: seq<Step>, step: Step, after: seq<Step>, id: ChannelId)
    requires Possible(Initial(capacity), before) && IsEnd(step)
    requires var s := RunSteps(Initial(capacity), before);
      && Enabled(s, step) && Possible(Apply(s, step), after) && id in s.listeners
      && id in s.demux.listening.subscribers && id in s.demux.listening.channels && !s.demux.listening.channels[id].closed
    ensures var s := RunSteps(Initial(capacity), before);
      var ended, t := Apply(s, step), RunSteps(Apply(s, step), after);
      && id in ended.demux.listening.channels && id in t.demux.listening.channels && id in t.listeners
      && s.listeners[id].start <= |s.history|
      && (s.demux.listening.channels[id].waiters > 0 ==> ended.demux.listening.channels[id].inbox == [Done])
      && HearsToTheEnd(t.listeners[id].phase, t.listeners[id].seen, t.demux.listening.channels[id],
                       s.history[s.listeners[id].start..])
  {
    var s := RunSteps(Initial(capacity), before);
    RunKeepsListenerEnds(Initial(capacity), before, id);
    HeardOut(s, step, after, id);
  }

  lemma HeardOut(s: System, step: Step, after: seq<Step>, id: ChannelId)
    requires ListenerOk(s, id) && ListenerEnds(s, id) && Enabled(s, step) && IsEnd(step) && Possible(Apply(s, step), after)
    requires id in s.listeners && id in s.demux.listening.subscribers && !s.demux.listening.channels[id].closed
    ensures var ended, t := Apply(s, step), RunSteps(Apply(s, step), after);
      && id in ended.demux.listening.channels && id in t.demux.listening.channels && id in t.listeners
      && (s.demux.listening.channels[id].waiters > 0 ==> ended.demux.listening.channels[id].inbox == [Done])
      && HearsToTheEnd(t.listeners[id].phase, t.listeners[id].seen, t.demux.listening.channels[id],
                       s.history[s.listeners[id].start..])
  {
    var t, published := RunSteps(Apply(s, step), after), s.history[s.listeners[id].start..];
    EndIsHeard(s, step, id);
    ListenerDrainsForGood(Apply(s, step), after, id, published);
    if t.listeners[id].phase != Finished {
      DrainsToTheEnd(t.listeners[id].phase, t.listeners[id].seen, t.demux.listening.channels[id], published);
    }
  }

  // ---------- Nothing is kept ----------

  /** After the end nobody is subscribed, and nothing is kept or ignored. */
  lemma NothingIsLeft(s: System, step: Step)
    requires Enabled(s, step) && (IsEnd(step) || step.StreamFails?)
    ensures var d := Apply(s, step).demux;
      && d.runSubscribers == map[] && d.listening.subscribers == {}
      && d.pendingEvents == map[] && d.pendingFailures == {} && d.ignoredRuns == {}
      && d.pendingRequests == s.demux.pendingRequests
      && (step.StreamEnds? ==> d.streamEnded) && (step.StreamFails? ==> d.streamFailed)
  {
  }

  lemma StepSetsFlags(s: System, step: Step)
    requires Enabled(s, step)
    ensures var t := Apply(s, step);
      && t.demux.streamEnded == (s.demux.streamEnded || step.StreamEnds?)
      && t.demux.streamFailed == (s.demux.streamFailed || step.StreamFails?)
      && t.demux.closed == (s.demux.closed || step.CloseBegins?)
      && t.demux.capacity == s.demux.capacity
  {
    match step
    case PublishEvent(event) => FlagsStay(Broadcast(s.demux, event), event);
    case Claim(_, run, id) => SubscribeFlags(s.demux, run, id);
    case Resume(id) => ResumeKeepsFlags(s, id);
    case Leave(id) => LeavingKeepsFlags(s.demux, s.consumers[id].run, id, false);
    case _ =>
  }

  lemma {:induction false} StepsSetFlags(s: System, steps: seq<Step>)
    requires Possible(s, steps)
    ensures var t := RunSteps(s, steps);
      && (t.demux.streamEnded <==> s.demux.streamEnded || StreamEnds in steps)
      && (t.demux.streamFailed <==> s.demux.streamFailed || StreamFails in steps)
      && (t.demux.closed <==> s.demux.closed || CloseBegins in steps)
      && t.demux.capacity == s.demux.capacity
    decreases |steps|
  {
    if steps != [] {
      StepSetsFlags(s, steps[0]);
      StepsSetFlags(Apply(s, steps[0]), steps[1..]);
      assert steps == [steps[0]] + steps[1..];
    }
  }

  /** The stream is over, failed or closed exactly if that has happened. */
  lemma FlagsFollowSteps(capacity: nat, steps: seq<Step>)
    requires Possible(Initial(capacity), steps)
    ensures var d := RunSteps(Initial(capacity), steps).demux;
      && (d.streamEnded <==> StreamEnds in steps) && (d.streamFailed <==> StreamFails in steps)
      && (d.closed <==> CloseBegins in steps) && d.capacity == capacity
  {
    StepsSetFlags(Initial(capacity), steps);
  }
}
