/**
 How reading ends in the client: who is told that the stream is over, who is told that it failed, and who that
 it fell too far behind.  Nobody is told so without cause, and a failure reaches everyone who was following.
*/
module ClientEndings {
  import opened Wrappers
  import opened EventChannel
  import opened ClientDemux
  import opened ClientProtocol
  import opened ClientListeners

  predicate Over(d: Demux) {
    d.streamEnded || d.closed
  }

  predicate Reading(phase: Phase) {
    phase == Idle || phase == Awaiting
  }

  /** An answer that ends the reading has its cause. */
  predicate Caused(outcome: Outcome, over: bool, failed: bool, excess: bool) {
    match outcome
    case Value(_) => true
    case Done => over
    case Rejected(StreamFailure) => failed
    case Rejected(Overflow) => excess
  }

  /** A closed channel has its cause: the last event is in it, the stream is over or failed, or it overflowed. */
  ghost predicate ClosedWithCause(c: Channel, last: bool, over: bool, failed: bool, excess: bool) {
    c.closed ==>
      match c.failure
      case None => last || over
      case Some(StreamFailure) => failed
      case Some(Overflow) => excess
  }

  ghost predicate EndedWithCause(phase: Phase, over: bool, failed: bool, excess: bool) {
    match phase
    case CutShort => over
    case Errored(failure) => Caused(Rejected(failure), over, failed, excess)
    case _ => true
  }

  /** What waits for the consumer, handed over or in its channel. */
  ghost function Ahead(c: Channel): seq<Event> {
    Delivered(c.inbox) + c.values
  }

  /** More events were published than the consumer has seen and its channel can hold. */
  ghost predicate Excess(seen: nat, c: Channel, published: nat) {
    published > seen + |Delivered(c.inbox)| + c.capacity
  }

  ghost predicate EndingOk(phase: Phase, c: Channel, last: bool, over: bool, failed: bool, excess: bool) {
    && EndedWithCause(phase, over, failed, excess)
    && (c.failure.Some? ==> c.closed && c.values == [])
    && (!c.closed ==> forall i :: 0 <= i < |c.inbox| ==> c.inbox[i].Value?)
    && (Reading(phase) ==>
          && ClosedWithCause(c, last, over, failed, excess)
          && forall i :: 0 <= i < |c.inbox| ==> Caused(c.inbox[i], over, failed, excess))
  }

  ghost predicate ConsumerEnds(s: System, id: ChannelId) {
    id in s.consumers && id in s.demux.channels ==>
      var k, c := s.consumers[id], s.demux.channels[id];
      && c.capacity == s.demux.capacity && |c.values| <= c.capacity
      && (Subscribed(s.demux, k.run, id) ==> Reading(k.phase))
      && (Reading(k.phase) && !c.closed ==> Subscribed(s.demux, k.run, id))
      && EndingOk(k.phase, c, HasTerminal(Ahead(c)), Over(s.demux), s.demux.streamFailed,
                  Excess(|k.seen|, c, |EventsOf(s.history, k.run)|))
  }

  /**
   Only events of the run are kept for it, it is marked as overflowed only if it has published more than can be
   kept, and without a request in flight nothing is kept.
  */
  ghost predicate KeptIn(d: Demux, run: RunId, published: nat) {
    && |Pending(d, run)| <= published
    && (run in d.pendingFailures ==> published > d.capacity)
    && (d.pendingRequests == 0 ==> run !in d.pendingEvents && run !in d.pendingFailures)
  }

  ghost predicate KeptOk(s: System, run: RunId) {
    KeptIn(s.demux, run, |EventsOf(s.history, run)|)
  }

  // ---------- One channel ----------

  lemma HasTerminalJoin(a: seq<Event>, b: seq<Event>)
    ensures HasTerminal(a + b) <==> HasTerminal(a) || HasTerminal(b)
  {
    if i :| 0 <= i < |a| && a[i].terminal {
      assert (a + b)[i].terminal;
    }
    if i :| 0 <= i < |b| && b[i].terminal {
      assert (a + b)[|a| + i].terminal;
    }
  }

  /** An open channel has no end to explain; completed, it holds the last event. */
  lemma OpenEnds(phase: Phase, c: Channel, complete: bool, over: bool, failed: bool, excess: bool)
    requires !c.closed && c.failure.None? && c.waiters == 0 && Reading(phase)
    requires forall i :: 0 <= i < |c.inbox| ==> c.inbox[i].Value?
    requires complete ==> HasTerminal(Ahead(c))
    ensures var p := if complete then Complete(c) else c;
      && p.capacity == c.capacity && p.values == c.values && p.inbox == c.inbox
      && EndingOk(phase, p, HasTerminal(Ahead(p)), over, failed, excess)
  {
    assert Repeat(Done, 0) == [];
  }

  /** The channel as the event leaves it, completed if it was the last one. */
  ghost function Pushed(c: Channel, event: Event): Channel {
    if event.terminal then Complete(Push(c, event)) else Push(c, event)
  }

  lemma PushEnds(k: Consumer, c: Channel, published: seq<Event>, event: Event, over: bool, failed: bool)
    requires InOrder(k, c, published, true) && |c.values| <= c.capacity && c.failure.None? && Reading(k.phase)
    requires forall i :: 0 <= i < |c.inbox| ==> c.inbox[i].Value?
    ensures var p := Pushed(c, event);
      && p.capacity == c.capacity && |p.values| <= p.capacity
      && EndingOk(k.phase, p, HasTerminal(Ahead(p)), over, failed, Excess(|k.seen|, p, |published| + 1))
  {
    var p := Push(c, event);
    if c.waiters > 0 {
      assert p.inbox == [Value(event)] && Ahead(p) == [event] + c.values;
      assert Ahead(p)[0].terminal == event.terminal;
      OpenEnds(k.phase, p, event.terminal, over, failed, Excess(|k.seen|, p, |published| + 1));
    } else if |c.values| < c.capacity {
      assert Ahead(p) == Ahead(c) + [event];
      HasTerminalSnoc(Ahead(c), event);
      OpenEnds(k.phase, p, event.terminal, over, failed, Excess(|k.seen|, p, |published| + 1));
    } else {
      OverflowEnds(k, c, published, event, over, failed);
    }
  }

  lemma OverflowEnds(k: Consumer, c: Channel, published: seq<Event>, event: Event, over: bool, failed: bool)
    requires InOrder(k, c, published, true) && c.waiters == 0 && |c.values| >= c.capacity && Reading(k.phase)
    requires forall i :: 0 <= i < |c.inbox| ==> c.inbox[i].Value?
    ensures var p := Pushed(c, event);
      && p == c.(closed := true, failure := Some(Overflow), values := [])
      && EndingOk(k.phase, p, HasTerminal(Ahead(p)), over, failed, Excess(|k.seen|, p, |published| + 1))
  {
    assert Repeat(Rejected(Overflow), 0) == [];
    assert published == k.seen + Delivered(c.inbox) + c.values;
  }

  lemma NextAhead(c: Channel)
    requires c.inbox == []
    ensures Ahead(Next(c)) == Ahead(c)
  {
    if |c.values| > 0 {
      assert Next(c).inbox == [Value(c.values[0])];
    }
  }

  lemma NextEnds(seen: nat, c: Channel, last: bool, published: nat, over: bool, failed: bool)
    requires Settled(Idle, c) && (last ==> c.values != [])
    requires EndingOk(Idle, c, last, over, failed, Excess(seen, c, published))
    ensures EndingOk(Awaiting, Next(c), last, over, failed, Excess(seen, Next(c), published))
    ensures |Next(c).values| <= |c.values| && Next(c).capacity == c.capacity && Next(c).closed == c.closed
  {
    if |c.values| > 0 {
      assert Next(c).inbox == [Value(c.values[0])];
    } else {
      assert Next(c).inbox == [] || Delivered(Next(c).inbox) == [];
    }
  }

  // ---------- Every step ----------

  /** What one consumer's state consists of, besides its own record. */
  ghost predicate SameFor(s: System, t: System, id: ChannelId) {
    && id in s.consumers && id in t.consumers && t.consumers[id] == s.consumers[id]
    && id in s.demux.channels && id in t.demux.channels && t.demux.channels[id] == s.demux.channels[id]
    && t.demux.capacity == s.demux.capacity
    && (Subscribed(t.demux, s.consumers[id].run, id) <==> Subscribed(s.demux, s.consumers[id].run, id))
    && (Over(s.demux) ==> Over(t.demux)) && (s.demux.streamFailed ==> t.demux.streamFailed)
    && |EventsOf(s.history, s.consumers[id].run)| <= |EventsOf(t.history, s.consumers[id].run)|
  }

  /** Nothing that the step of another brings about takes a cause away. */
  lemma OthersKeepEnds(s: System, t: System, id: ChannelId)
    requires SameFor(s, t, id) && ConsumerEnds(s, id)
    ensures ConsumerEnds(t, id)
  {
  }

  /** An event that is delivered to this consumer. */
  lemma DeliveryEndsAt(s: System, event: Event, id: ChannelId)
    requires ConsumerOk(s, id) && ConsumerEnds(s, id) && id in s.consumers && DeliversToOwner(s, event)
    requires Delivers(s, event) && event.run.value == s.consumers[id].run
    ensures ConsumerEnds(Published(s, event), id)
  {
    var k, c := s.consumers[id], s.demux.channels[id];
    DeliveredTo(s, event, id);
    PushEnds(k, c, EventsOf(s.history, k.run), event, Over(s.demux), s.demux.streamFailed);
  }

  /** The event is pushed into the channel, which stays subscribed as long as it is open. */
  lemma DeliveredTo(s: System, event: Event, id: ChannelId)
    requires ConsumerOk(s, id) && id in s.consumers && DeliversToOwner(s, event)
    requires Delivers(s, event) && event.run.value == s.consumers[id].run
    ensures var k, t := s.consumers[id], Published(s, event);
      && Subscribed(s.demux, k.run, id)
      && id in t.demux.channels && t.demux.channels[id] == Pushed(s.demux.channels[id], event)
      && (Subscribed(t.demux, k.run, id) <==> !Pushed(s.demux.channels[id], event).closed)
      && |EventsOf(t.history, k.run)| == |EventsOf(s.history, k.run)| + 1
      && t.demux.capacity == s.demux.capacity && Over(t.demux) == Over(s.demux)
      && t.demux.streamFailed == s.demux.streamFailed
  {
    EventsOfSnoc(s.history, event, s.consumers[id].run);
    PublishToOwner(s.demux, s.consumers[id].run, event, id);
    FlagsStay(s.demux, event);
  }

  /** Any other event leaves this consumer's channel alone. */
  lemma OtherEventAt(s: System, event: Event, id: ChannelId)
    requires ConsumerOk(s, id) && id in s.consumers && DeliversToOwner(s, event)
    requires !(Delivers(s, event) && event.run.value == s.consumers[id].run)
    ensures SameFor(s, Published(s, event), id)
  {
    EventsOfSnoc(s.history, event, s.consumers[id].run);
    if Delivers(s, event) {
      DeliveredElsewhere(s, event, id);
    } else {
      PublishElsewhere(s, event);
      FlagsStay(s.demux, event);
    }
  }

  lemma FlagsStay(d: Demux, event: Event)
    ensures var t := PublishRun(d, event);
      t.capacity == d.capacity && t.streamEnded == d.streamEnded && t.streamFailed == d.streamFailed && t.closed == d.closed
  {
  }

  lemma DeliveredElsewhere(s: System, event: Event, id: ChannelId)
    requires ConsumerOk(s, id) && id in s.consumers && DeliversToOwner(s, event) && Delivers(s, event)
    requires event.run.value != s.consumers[id].run
    requires |EventsOf(s.history, s.consumers[id].run)| <= |EventsOf(s.history + [event], s.consumers[id].run)|
    ensures SameFor(s, Published(s, event), id)
  {
    PublishToOwner(s.demux, event.run.value, event, s.owners[event.run.value]);
    FlagsStay(s.demux, event);
  }

  lemma PublishEndsAt(s: System, event: Event, id: ChannelId)
    requires Inv(s) && ConsumerEnds(s, id) && id in s.consumers
    ensures ConsumerEnds(Published(s, event), id)
  {
    assert ConsumerOk(s, id);
    InvDelivers(s, event);
    if Delivers(s, event) && event.run.value == s.consumers[id].run {
      DeliveryEndsAt(s, event, id);
    } else {
      OtherEventAt(s, event, id);
      OthersKeepEnds(s, Published(s, event), id);
    }
  }

  lemma RepeatAll(outcome: Outcome, n: nat)
    ensures |Repeat(outcome, n)| == n && forall i :: 0 <= i < n ==> Repeat(outcome, n)[i] == outcome
  {
    if n > 0 {
      RepeatAll(outcome, n - 1);
    }
  }

  /** Completing or failing an open channel when the stream is over or has failed. */
  lemma OpenStops(phase: Phase, c: Channel, fails: bool, last: bool, over: bool, failed: bool, excess: bool)
    requires !c.closed && c.failure.None? && Reading(phase) && (if fails then failed else over)
    requires forall i :: 0 <= i < |c.inbox| ==> c.inbox[i].Value?
    ensures var p := if fails then Fail(c, StreamFailure) else Complete(c);
      && p.capacity == c.capacity && |p.values| <= |c.values|
      && EndingOk(phase, p, last, over, failed, excess)
  {
    RepeatAll(Done, c.waiters);
    RepeatAll(Rejected(StreamFailure), c.waiters);
  }

  lemma SubscribedIsOnly(s: System, id: ChannelId)
    requires Inv(s) && id in s.consumers
    ensures id in AllSubscribed(s.demux) <==> Subscribed(s.demux, s.consumers[id].run, id)
  {
    assert ConsumerOk(s, id);
    if id in AllSubscribed(s.demux) {
      var r :| r in s.demux.runSubscribers && id in s.demux.runSubscribers[r];
      assert RunOk(s, r);
    }
  }

  lemma StreamEndsAt(s: System, after: Demux, id: ChannelId)
    requires Inv(s) && ConsumerEnds(s, id) && id in s.consumers && EndsStream(s, after)
    ensures ConsumerEnds(s.(demux := after), id)
  {
    var t, k, c := s.(demux := after), s.consumers[id], s.demux.channels[id];
    assert ConsumerOk(s, id);
    SubscribedIsOnly(s, id);
    if Subscribed(s.demux, k.run, id) {
      var p := t.demux.channels[id];
      OpenStops(k.phase, c, after.streamFailed && after == FailStream(s.demux), HasTerminal(Ahead(p)), Over(after),
                after.streamFailed, Excess(|k.seen|, p, |EventsOf(s.history, k.run)|));
    } else {
      OthersKeepEnds(s, t, id);
    }
  }
  /** Every step of the client that another one takes. */
  lemma OtherStepAt(s: System, step: Step, id: ChannelId)
    requires Inv(s) && Enabled(s, step) && id in s.consumers && !step.PublishEvent?
    requires !step.StreamEnds? && !step.StreamFails? && !step.CloseEnds?
    requires (step.Claim? || step.CallNext? || step.Resume? || step.Leave?) ==> step.id != id
    ensures SameFor(s, Apply(s, step), id)
  {
    assert ConsumerOk(s, id);
    match step
    case Claim(q, run, other) => ClaimAt(s, q, run, other, id);
    case Resume(other) => ResumeAt(s, other, id);
    case Leave(other) => LeaveAt(s, other, id);
    case _ =>
  }

  lemma ClaimAt(s: System, q: RequestId, run: RunId, other: ChannelId, id: ChannelId)
    requires Inv(s) && Enabled(s, Claim(q, run, other)) && id in s.consumers
    ensures SameFor(s, Apply(s, Claim(q, run, other)), id)
  {
    assert ConsumerOk(s, id) && RunOk(s, run);
    SubscribeChanges(s.demux, run, other, s.consumers[id].run);
    SubscribesIfOpen(s.demux, run, other);
  }

  lemma StoppedAt(s: System, other: ChannelId, k: Consumer, channel: Channel, terminalSeen: bool, id: ChannelId)
    requires id in s.consumers && id in s.demux.channels && other != id && other in s.demux.channels
    ensures SameFor(s, Stopped(s, other, k, channel, terminalSeen), id)
  {
    LeavingKeepsOthers(s.demux.(channels := s.demux.channels[other := channel]), k.run, other, terminalSeen);
  }

  lemma ResumeAt(s: System, other: ChannelId, id: ChannelId)
    requires Inv(s) && Enabled(s, Resume(other)) && id in s.consumers && other != id
    ensures SameFor(s, Apply(s, Resume(other)), id)
  {
    assert ConsumerOk(s, id);
    var k, c := s.consumers[other], s.demux.channels[other];
    if c.inbox[0].Value? {
      StoppedAt(s, other, k.(seen := k.seen + [c.inbox[0].event], phase := Finished), Taken(c), true, id);
    } else {
      StoppedAt(s, other, k.(phase := AfterEnd(c.inbox[0])), Taken(c), false, id);
    }
  }

  lemma LeaveAt(s: System, other: ChannelId, id: ChannelId)
    requires Inv(s) && Enabled(s, Leave(other)) && id in s.consumers && other != id
    ensures SameFor(s, Apply(s, Leave(other)), id)
  {
    assert ConsumerOk(s, id);
    LeavingKeepsOthers(s.demux, s.consumers[other].run, other, false);
  }

  /** A consumer starts with what was kept for its run, or with the reason why it cannot follow it. */
  lemma SubscribedEnds(s: System, q: RequestId, run: RunId, id: ChannelId)
    requires FreshRun(s, q, run) && id !in s.demux.channels && RunOk(s, run) && KeptOk(s, run)
    ensures ConsumerEnds(AfterSubscribe(s, q, run, id), id)
  {
    var t, c := AfterSubscribe(s, q, run, id), Filled(s.demux, run);
    FilledEnds(s.demux, run, |EventsOf(s.history, run)|);
    SubscribesIfOpen(s.demux, run, id);
    assert t.demux.channels[id] == c;
    SubscribeFlags(s.demux, run, id);
  }

  lemma SubscribeFlags(d: Demux, run: RunId, id: ChannelId)
    ensures var t := SubscribeRun(d, run, id);
      && t.capacity == d.capacity && t.streamEnded == d.streamEnded && t.streamFailed == d.streamFailed
      && t.closed == d.closed
  {
  }

  lemma RequestEndedAt(s: System, q: RequestId, id: ChannelId)
    requires ConsumerEnds(s, id) && id in s.consumers && id in s.demux.channels
    ensures ConsumerEnds(s.(demux := EndRequest(s.demux), requests := s.requests - {q}), id)
  {
    OthersKeepEnds(s, s.(demux := EndRequest(s.demux), requests := s.requests - {q}), id);
  }

  lemma ClaimEndsAt(s: System, q: RequestId, run: RunId, id: ChannelId)
    requires Inv(s) && Enabled(s, Claim(q, run, id)) && KeptOk(s, run)
    ensures ConsumerEnds(Apply(s, Claim(q, run, id)), id)
  {
    assert RunOk(s, run);
    SubscribedEnds(s, q, run, id);
    RequestEndedAt(AfterSubscribe(s, q, run, id), q, id);
  }

  lemma FilledEnds(d: Demux, run: RunId, published: nat)
    requires |Pending(d, run)| <= d.capacity && KeptIn(d, run, published)
    ensures var c := Filled(d, run);
      && c.capacity == d.capacity && |c.values| <= c.capacity
      && EndingOk(Idle, c, HasTerminal(Ahead(c)), Over(d), d.streamFailed, Excess(0, c, published))
  {
    if d.Live() {
      PushAllOpen(CreateChannel(d), Pending(d, run));
      FilledOpen(d, run);
    } else {
      PushAllClosed(CreateChannel(d), Pending(d, run));
      FilledClosed(d, run);
    }
  }

  /** While the stream goes on, the new channel holds what was kept, completed if that was all; or it overflowed. */
  lemma FilledOpen(d: Demux, run: RunId)
    requires d.Live() && PushAll(CreateChannel(d), Pending(d, run)) == CreateChannel(d).(values := Pending(d, run))
    ensures var c := Filled(d, run);
      && c.waiters == 0 && c.inbox == [] && c.capacity == d.capacity
      && c.failure == (if run in d.pendingFailures then Some(Overflow) else None)
      && c.values == (if run in d.pendingFailures then [] else Pending(d, run))
      && c.closed == (run in d.pendingFailures || HasTerminal(Pending(d, run)))
      && Ahead(c) == c.values
  {
    assert Repeat(Done, 0) == [] && Repeat(Rejected(Overflow), 0) == [];
    assert Delivered([]) == [];
  }

  /** Otherwise it says from the start how the stream came to its end. */
  lemma FilledClosed(d: Demux, run: RunId)
    requires !d.Live() && PushAll(CreateChannel(d), Pending(d, run)) == CreateChannel(d)
    ensures var c := Filled(d, run);
      && c.closed && c.waiters == 0 && c.inbox == [] && c.values == [] && c.capacity == d.capacity
      && c.failure == (if d.streamFailed then Some(StreamFailure) else None)
  {
    assert Repeat(Done, 0) == [] && Repeat(Rejected(StreamFailure), 0) == [];
  }

  lemma CallNextEndsAt(s: System, id: ChannelId)
    requires ConsumerOk(s, id) && ConsumerEnds(s, id) && Enabled(s, CallNext(id))
    ensures ConsumerEnds(Apply(s, CallNext(id)), id)
  {
    var k, c := s.consumers[id], s.demux.channels[id];
    NextOfRun(c, |k.seen|, |EventsOf(s.history, k.run)|, Over(s.demux), s.demux.streamFailed);
  }

  lemma NextOfRun(c: Channel, seen: nat, published: nat, over: bool, failed: bool)
    requires Settled(Idle, c) && EndingOk(Idle, c, HasTerminal(Ahead(c)), over, failed, Excess(seen, c, published))
    ensures var p := Next(c);
      && EndingOk(Awaiting, p, HasTerminal(Ahead(p)), over, failed, Excess(seen, p, published))
      && |p.values| <= |c.values| && p.capacity == c.capacity && p.closed == c.closed
  {
    NextAhead(c);
    assert Ahead(c) == c.values;
    NextEnds(seen, c, HasTerminal(Ahead(c)), published, over, failed);
  }

  lemma TakenAhead(c: Channel)
    requires |c.inbox| == 1 && c.inbox[0].Value? && !c.inbox[0].event.terminal
    ensures HasTerminal(Ahead(Taken(c))) == HasTerminal(Ahead(c))
  {
    HasTerminalJoin([c.inbox[0].event], c.values);
    assert Ahead(Taken(c)) == c.values;
  }

  lemma TakenEnds(c: Channel, seen: nat, last: bool, over: bool, failed: bool, published: nat)
    requires |c.inbox| == 1 && c.inbox[0].Value?
    requires EndingOk(Awaiting, c, last, over, failed, Excess(seen, c, published))
    ensures EndingOk(Idle, Taken(c), last, over, failed, Excess(seen + 1, Taken(c), published))
  {
    assert Taken(c).inbox == [];
  }

  lemma StoppedEnds(s: System, id: ChannelId, k: Consumer, channel: Channel, terminalSeen: bool)
    requires id in s.consumers && id in s.demux.channels && k.run == s.consumers[id].run && !Reading(k.phase)
    requires channel.capacity == s.demux.capacity && |channel.values| <= channel.capacity
    requires channel.failure.Some? ==> channel.closed && channel.values == []
    requires !channel.closed ==> channel.inbox == [] && channel.waiters == 0
    requires EndedWithCause(k.phase, Over(s.demux), s.demux.streamFailed,
                            Excess(|k.seen|, channel, |EventsOf(s.history, k.run)|))
    requires channel.inbox == []
    ensures ConsumerEnds(Stopped(s, id, k, channel, terminalSeen), id)
  {
    assert Repeat(Done, 0) == [];
    LeavingKeepsOthers(s.demux.(channels := s.demux.channels[id := channel]), k.run, id, terminalSeen);
  }

  lemma ResumeEndsAt(s: System, id: ChannelId)
    requires ConsumerOk(s, id) && ConsumerEnds(s, id) && Enabled(s, Resume(id))
    ensures ConsumerEnds(Apply(s, Resume(id)), id)
  {
    var k, c := s.consumers[id], s.demux.channels[id];
    var published := |EventsOf(s.history, k.run)|;
    assert c.inbox == [c.inbox[0]] && Taken(c).inbox == [];
    if c.inbox[0].Value? {
      if c.inbox[0].event.terminal {
        StoppedEnds(s, id, k.(seen := k.seen + [c.inbox[0].event], phase := Finished), Taken(c), true);
      } else {
        TakenAhead(c);
        TakenEnds(c, |k.seen|, HasTerminal(Ahead(c)), Over(s.demux), s.demux.streamFailed, published);
      }
    } else {
      StoppedEnds(s, id, k.(phase := AfterEnd(c.inbox[0])), Taken(c), false);
    }
  }

  lemma LeaveEndsAt(s: System, id: ChannelId)
    requires Inv(s) && ConsumerEnds(s, id) && Enabled(s, Leave(id))
    ensures ConsumerEnds(Apply(s, Leave(id)), id)
  {
    assert ConsumerOk(s, id);
    LeavingKeepsOthers(s.demux, s.consumers[id].run, id, false);
  }
  // ---------- What is kept ----------

  lemma KeepPendingOk(d: Demux, run: RunId, event: Event, n: nat)
    requires KeptIn(d, run, n) && |Pending(d, run)| <= d.capacity && d.pendingRequests > 0
    ensures KeptIn(KeepPending(d, run, event), run, n + 1)
  {
  }

  lemma KeepOtherOk(d: Demux, run: RunId, event: Event, r: RunId, n: nat)
    requires KeptIn(d, r, n) && r != run && d.pendingRequests > 0
    ensures KeptIn(KeepPending(d, run, event), r, n)
  {
    KeepOther(d, run, event, r);
  }

  ghost predicate KeepsFor(d: Demux, event: Event) {
    event.run.Some? && event.run.value !in d.ignoredRuns && event.run.value !in d.runSubscribers && d.pendingRequests > 0
  }

  lemma KeepsOne(d: Demux, event: Event)
    requires KeepsFor(d, event)
    ensures PublishRun(d, event) == KeepPending(d, event.run.value, event)
  {
  }

  /** An event that is not kept changes nothing of what is. */
  lemma KeepsNone(d: Demux, event: Event)
    requires !KeepsFor(d, event)
    ensures var t := PublishRun(d, event);
      && t.pendingEvents == d.pendingEvents && t.pendingFailures == d.pendingFailures
      && t.pendingRequests == d.pendingRequests && t.capacity == d.capacity
  {
  }

  lemma PublishKeepsKept(s: System, event: Event, run: RunId)
    requires RunOk(s, run) && KeptOk(s, run)
    ensures KeptOk(Published(s, event), run)
  {
    var n := |EventsOf(s.history, run)|;
    EventsOfSnoc(s.history, event, run);
    if !KeepsFor(s.demux, event) {
      KeepsNone(s.demux, event);
    } else {
      KeepsOne(s.demux, event);
      if event.run.value == run {
        KeepPendingOk(s.demux, run, event, n);
      } else {
        KeepOtherOk(s.demux, event.run.value, event, run, n);
      }
    }
  }

  /** What is kept only shrinks when nothing is published. */
  ghost predicate KeptShrinks(d: Demux, t: Demux, run: RunId) {
    && t.capacity == d.capacity
    && |Pending(t, run)| <= |Pending(d, run)|
    && (run in t.pendingFailures ==> run in d.pendingFailures)
    && (run in t.pendingEvents ==> run in d.pendingEvents)
  }

  lemma ClaimShrinks(d: Demux, claimed: RunId, id: ChannelId, run: RunId)
    requires d.pendingRequests > 0
    ensures var t := EndRequest(SubscribeRun(d, claimed, id));
      && KeptShrinks(d, t, run)
      && (t.pendingRequests == 0 ==> run !in t.pendingEvents && run !in t.pendingFailures)
  {
  }

  lemma StopShrinks(d: Demux, run: RunId, id: ChannelId, terminalSeen: bool)
    requires id in d.channels
    ensures var t := UnsubscribeRun(d, run, id, terminalSeen);
      && t.pendingEvents == d.pendingEvents && t.pendingFailures == d.pendingFailures
      && t.pendingRequests == d.pendingRequests && t.capacity == d.capacity
  {
  }

  lemma ResumeShrinks(s: System, id: ChannelId)
    requires Enabled(s, Resume(id))
    ensures var t := ApplyResume(s, id);
      && t.demux.pendingEvents == s.demux.pendingEvents && t.demux.pendingFailures == s.demux.pendingFailures
      && t.demux.pendingRequests == s.demux.pendingRequests && t.demux.capacity == s.demux.capacity
      && t.history == s.history
  {
    var taken := s.demux.(channels := s.demux.channels[id := Taken(s.demux.channels[id])]);
    StopShrinks(taken, s.consumers[id].run, id, true);
    StopShrinks(taken, s.consumers[id].run, id, false);
  }

  lemma EndShrinks(s: System, after: Demux, run: RunId)
    requires EndsStream(s, after)
    ensures Pending(after, run) == [] && run !in after.pendingFailures && run !in after.pendingEvents
  {
  }

  lemma StepKeepsKept(s: System, step: Step, run: RunId)
    requires Inv(s) && Enabled(s, step) && KeptOk(s, run)
    ensures KeptOk(Apply(s, step), run)
  {
    match step
    case PublishEvent(event) =>
      assert RunOk(s, run);
      PublishKeepsKept(s.(demux := Broadcast(s.demux, event)), event, run);
    case Claim(q, claimed, id) =>
      NoRequests(s, q);
      ClaimShrinks(s.demux, claimed, id, run);
    case RequestFails(q) => NoRequests(s, q);
    case Resume(id) => ResumeShrinks(s, id);
    case Leave(id) => StopShrinks(s.demux, s.consumers[id].run, id, false);
    case StreamEnds => EndShrinks(s, EndStream(s.demux), run);
    case StreamFails => EndShrinks(s, FailStream(s.demux), run);
    case CloseEnds => EndShrinks(s, CompleteSubscribers(s.demux), run);
    case _ =>
  }

  lemma StepKeepsEnds(s: System, step: Step, id: ChannelId)
    requires Inv(s) && Enabled(s, step) && ConsumerEnds(s, id)
    requires step.Claim? ==> KeptOk(s, step.run)
    ensures ConsumerEnds(Apply(s, step), id)
  {
    if id !in s.consumers {
      assert ConsumerOk(s, id);
      if step.Claim? && step.id == id {
        ClaimEndsAt(s, step.request, step.run, id);
      } else {
        NobodyNew(s, step, id);
      }
    } else {
      StepKeepsEndsOf(s, step, id);
    }
  }

  lemma NobodyNew(s: System, step: Step, id: ChannelId)
    requires Enabled(s, step) && id !in s.consumers && !(step.Claim? && step.id == id)
    ensures id !in Apply(s, step).consumers
  {
  }

  lemma StepKeepsEndsOf(s: System, step: Step, id: ChannelId)
    requires Inv(s) && Enabled(s, step) && ConsumerEnds(s, id) && id in s.consumers
    ensures ConsumerEnds(Apply(s, step), id)
  {
    if step.PublishEvent? {
      BroadcastEndsAt(s, step.event, id);
    } else if step.StreamEnds? || step.StreamFails? || step.CloseEnds? {
      StreamEndsAt(s, Apply(s, step).demux, id);
    } else if (step.CallNext? || step.Resume? || step.Leave?) && step.id == id {
      OwnStepEndsAt(s, step, id);
    } else {
      OtherStepAt(s, step, id);
      OthersKeepEnds(s, Apply(s, step), id);
    }
  }

  lemma BroadcastEndsAt(s: System, event: Event, id: ChannelId)
    requires Inv(s) && ConsumerEnds(s, id) && id in s.consumers && Enabled(s, PublishEvent(event))
    ensures ConsumerEnds(Apply(s, PublishEvent(event)), id)
  {
    var heard := s.(demux := Broadcast(s.demux, event));
    assert ConsumerOk(s, id);
    ListenersApart(s, heard);
    OthersKeepEnds(s, heard, id);
    PublishEndsAt(heard, event, id);
  }

  lemma OwnStepEndsAt(s: System, step: Step, id: ChannelId)
    requires Inv(s) && Enabled(s, step) && ConsumerEnds(s, id) && (step.CallNext? || step.Resume? || step.Leave?)
    requires step.id == id
    ensures ConsumerEnds(Apply(s, step), id)
  {
    assert ConsumerOk(s, id);
    match step
    case CallNext(_) => CallNextEndsAt(s, id);
    case Resume(_) => ResumeEndsAt(s, id);
    case Leave(_) => LeaveEndsAt(s, id);
  }

  ghost predicate EndsInv(s: System) {
    && Inv(s)
    && (forall id :: ConsumerEnds(s, id))
    && (forall run :: KeptOk(s, run))
  }

  lemma EndsKeep(s: System, step: Step)
    requires EndsInv(s) && Enabled(s, step)
    ensures EndsInv(Apply(s, step))
  {
    var t := Apply(s, step);
    StepKeeps(s, step);
    forall id ensures ConsumerEnds(t, id) {
      assert ConsumerEnds(s, id);
      assert step.Claim? ==> KeptOk(s, step.run);
      StepKeepsEnds(s, step, id);
    }
    forall run ensures KeptOk(t, run) {
      assert KeptOk(s, run);
      StepKeepsKept(s, step, run);
    }
  }

  lemma {:induction false} EndsKept(s: System, steps: seq<Step>)
    requires EndsInv(s) && Possible(s, steps)
    ensures EndsInv(RunSteps(s, steps))
    decreases |steps|
  {
    if steps != [] {
      EndsKeep(s, steps[0]);
      EndsKept(Apply(s, steps[0]), steps[1..]);
    }
  }

  /**
   In every interleaving a run ends for its consumer without a last event only if the stream is over, with
   the stream's failure only if the stream failed, and with an overflow only if the run published more
   since the request than the consumer has seen and its channel holds.  As long as it reads an open channel it is subscribed.
  */
  lemma EndingsHaveTheirCause(capacity: nat, steps: seq<Step>, id: ChannelId)
    requires Possible(Initial(capacity), steps) && id in RunSteps(Initial(capacity), steps).consumers
    ensures var s := RunSteps(Initial(capacity), steps);
      var k := s.consumers[id];
      && k.start <= |s.history|
      && (k.phase == CutShort ==> s.demux.streamEnded || s.demux.closed)
      && (k.phase == Errored(StreamFailure) ==> s.demux.streamFailed)
      && (k.phase == Errored(Overflow) ==> |EventsOf(s.history[k.start..], k.run)| > |k.seen| + s.demux.capacity)
      && id in s.demux.channels
      && (k.phase in {Idle, Awaiting} && !s.demux.channels[id].closed ==> Subscribed(s.demux, k.run, id))
  {
    var s := RunSteps(Initial(capacity), steps);
    EndsKept(Initial(capacity), steps);
    assert ConsumerOk(s, id) && ConsumerEnds(s, id);
    NoEarlierEvents(s.history, s.consumers[id].start, s.consumers[id].run);
  }

  // ---------- A failure reaches everyone ----------

  /** A consumer for which the stream has failed: it can still be handed what had been handed over, and then the failure. */
  ghost predicate Doomed(s: System, id: ChannelId, handed: seq<Outcome>) {
    && s.demux.streamFailed && id in s.consumers && id in s.demux.channels
    && Failed(s.consumers[id].phase, s.demux.channels[id], handed)
  }

  ghost predicate Failed(phase: Phase, c: Channel, handed: seq<Outcome>) {
    && c.closed && c.failure == Some(StreamFailure) && c.values == []
    && (phase == Idle || phase == Awaiting || phase == Errored(StreamFailure) || phase == Left)
    && (phase == Awaiting ==> (handed != [] && c.inbox == handed) || c.inbox == [Rejected(StreamFailure)])
    && (phase != Awaiting ==> c.inbox == [])
  }

  /** What a reader of an open channel has been handed: at most one event, and not the last one. */
  ghost predicate Early(handed: seq<Outcome>) {
    handed == [] || (|handed| == 1 && handed[0].Value? && !handed[0].event.terminal)
  }

  lemma FailsReader(phase: Phase, c: Channel)
    requires Reading(phase) && Settled(phase, c) && !c.closed
    ensures Failed(phase, Fail(c, StreamFailure), c.inbox)
    ensures c.waiters > 0 ==> Fail(c, StreamFailure).inbox == [Rejected(StreamFailure)]
  {
    RepeatOne(Rejected(StreamFailure));
    assert Repeat(Rejected(StreamFailure), 0) == [];
  }

  lemma FailureArrives(s: System, id: ChannelId)
    requires EndsInv(s) && Enabled(s, StreamFails) && id in s.consumers && Subscribed(s.demux, s.consumers[id].run, id)
    ensures Early(s.demux.channels[id].inbox)
    ensures Doomed(Apply(s, StreamFails), id, s.demux.channels[id].inbox)
    ensures s.demux.channels[id].waiters > 0 ==>
      Apply(s, StreamFails).demux.channels[id].inbox == [Rejected(StreamFailure)]
  {
    var k, c := s.consumers[id], s.demux.channels[id];
    assert ConsumerOk(s, id) && ConsumerEnds(s, id);
    SubscribedIsOnly(s, id);
    var flow := EventsOf(s.history, k.run);
    if c.inbox != [] {
      assert flow[|k.seen|] == c.inbox[0].event;
    }
    FailsReader(k.phase, c);
  }

  lemma DoomedStays(s: System, step: Step, id: ChannelId, handed: seq<Outcome>)
    requires EndsInv(s) && Enabled(s, step) && Doomed(s, id, handed) && Early(handed)
    ensures Doomed(Apply(s, step), id, handed)
  {
    assert ConsumerOk(s, id);
    if step == CallNext(id) || step == Leave(id) {
    } else if step == Resume(id) {
      DoomedReads(s, id, handed);
    } else if step.CloseEnds? {
    } else {
      OtherStepAt(s, step, id);
    }
  }

  lemma DoomedReads(s: System, id: ChannelId, handed: seq<Outcome>)
    requires Enabled(s, Resume(id)) && Doomed(s, id, handed) && Early(handed)
    ensures Doomed(Apply(s, Resume(id)), id, handed)
  {
  }

  lemma {:induction false} DoomedForGood(s: System, steps: seq<Step>, id: ChannelId, handed: seq<Outcome>)
    requires EndsInv(s) && Possible(s, steps) && Doomed(s, id, handed) && Early(handed)
    ensures Doomed(RunSteps(s, steps), id, handed)
    decreases |steps|
  {
    if steps != [] {
      EndsKeep(s, steps[0]);
      DoomedStays(s, steps[0], id, handed);
      DoomedForGood(Apply(s, steps[0]), steps[1..], id, handed);
    }
  }

  /** Before, at and long after the failure: a wait is rejected, and no later read and no later end hides it. */
  ghost predicate FailureHeld(was: Channel, failed: Channel, phase: Phase, c: Channel) {
    && (was.waiters > 0 ==> failed.inbox == [Rejected(StreamFailure)])
    && match phase
       case Idle => Next(c).inbox == [Rejected(StreamFailure)]
       case Awaiting => c.inbox == [Rejected(StreamFailure)] || (was.inbox != [] && c.inbox == was.inbox)
       case Errored(failure) => failure == StreamFailure
       case Left => true
       case _ => false
  }

  lemma FailedForGood(s: System, after: seq<Step>, id: ChannelId)
    requires EndsInv(s) && id in s.consumers && id in s.demux.channels && Subscribed(s.demux, s.consumers[id].run, id)
    requires Enabled(s, StreamFails) && Possible(Apply(s, StreamFails), after)
    ensures var failed, t := Apply(s, StreamFails), RunSteps(Apply(s, StreamFails), after);
      && id in failed.demux.channels && id in t.demux.channels && id in t.consumers
      && FailureHeld(s.demux.channels[id], failed.demux.channels[id], t.consumers[id].phase, t.demux.channels[id])
  {
    FailureArrives(s, id);
    EndsKeep(s, StreamFails);
    DoomedForGood(Apply(s, StreamFails), after, id, s.demux.channels[id].inbox);
  }

  /**
   When the stream fails, a consumer that follows its run and waits is rejected at once.  Whatever happens
   then, no run ends well for such a consumer: a read it makes is rejected, unless it had been answered with
   an event before, and the only end is the failure of the stream, or leaving.
  */
  lemma FailureReachesConsumers(capacity: nat, before: seq<Step>, after: seq<Step>, id: ChannelId)
    requires Possible(Initial(capacity), before)
    requires var s := RunSteps(Initial(capacity), before);
      && Enabled(s, StreamFails) && Possible(Apply(s, StreamFails), after)
      && id in s.consumers && Subscribed(s.demux, s.consumers[id].run, id)
    ensures var s := RunSteps(Initial(capacity), before);
      var failed, t := Apply(s, StreamFails), RunSteps(Apply(s, StreamFails), after);
      && id in s.demux.channels && id in failed.demux.channels && id in t.demux.channels && id in t.consumers
      && FailureHeld(s.demux.channels[id], failed.demux.channels[id], t.consumers[id].phase, t.demux.channels[id])
  {
    EndsKept(Initial(capacity), before);
    assert ConsumerOk(RunSteps(Initial(capacity), before), id);
    FailedForGood(RunSteps(Initial(capacity), before), after, id);
  }
}
