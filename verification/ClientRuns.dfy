/**
 Which runs the client ignores: those whose consumer stopped before the last event, and no others that are
 still being read to their end.
*/
module ClientRuns {
  import opened Wrappers
  import opened EventChannel
  import opened ClientDemux
  import opened ClientProtocol
  import opened ClientEndings

  /**
   A run left before its last event is ignored as long as the stream goes on.  A run that was read to its end is
   not, nor one whose last event still waits for its consumer.
  */
  ghost predicate LeftOk(s: System, run: RunId) {
    run in s.owners && s.owners[run] in s.consumers && s.owners[run] in s.demux.channels ==>
      var id := s.owners[run];
      LeftAt(s.consumers[id].phase, s.demux.channels[id], s.demux.Live(), HasTerminal(EventsOf(s.history, run)),
             run in s.demux.ignoredRuns)
  }

  ghost predicate LeftAt(phase: Phase, c: Channel, live: bool, ended: bool, ignored: bool) {
    && (live && !ended && !Reading(phase) ==> ignored)
    && (ignored ==> phase != Finished && (Reading(phase) ==> !HasTerminal(Ahead(c))))
  }

  /** An event delivered to the run's consumer. */
  lemma DeliveryKeepsLeft(s: System, event: Event, run: RunId)
    requires Inv(s) && run in s.owners && Delivers(s, event) && event.run == Some(run)
    requires ConsumerEnds(s, s.owners[run]) && LeftOk(s, run)
    ensures LeftOk(Published(s, event), run)
  {
    var id := s.owners[run];
    assert RunOk(s, run) && ConsumerOk(s, id);
    PublishToOwner(s.demux, run, event, id);
    MoreEnds(s, event, run);
    OverflowAhead(s.consumers[id], s.demux.channels[id], EventsOf(s.history, run), event);
  }

  /** What a consumer still has to read after an overflow is no last event. */
  lemma OverflowAhead(k: Consumer, c: Channel, published: seq<Event>, event: Event)
    requires InOrder(k, c, published, true)
    ensures Push(c, event).closed ==> !HasTerminal(Ahead(Push(c, event)))
  {
    assert Flow(k, c) == k.seen + Ahead(c);
    HasTerminalJoin(k.seen, Ahead(c));
    HasTerminalJoin(Delivered(c.inbox), c.values);
    if c.waiters == 0 && |c.values| >= c.capacity {
      assert Repeat(Rejected(Overflow), 0) == [];
      assert Ahead(Push(c, event)) == Delivered(c.inbox);
    }
  }

  lemma MoreEnds(s: System, event: Event, run: RunId)
    ensures var t := Published(s, event);
      HasTerminal(EventsOf(t.history, run)) <==> HasTerminal(EventsOf(s.history, run)) || (event.terminal && event.run == Some(run))
  {
    EventsOfSnoc(s.history, event, run);
    if event.run == Some(run) {
      HasTerminalSnoc(EventsOf(s.history, run), event);
    } else {
      assert EventsOf(s.history + [event], run) == EventsOf(s.history, run);
    }
  }

  /** Any other event at most lets a run that is over be forgotten. */
  lemma OtherEventKeepsLeft(s: System, event: Event, run: RunId)
    requires Inv(s) && !(Delivers(s, event) && event.run == Some(run)) && LeftOk(s, run) && run in s.owners
    ensures LeftOk(Published(s, event), run)
  {
    var id := s.owners[run];
    assert RunOk(s, run) && ConsumerOk(s, id);
    InvDelivers(s, event);
    OtherEventAt(s, event, id);
    MoreEnds(s, event, run);
    FlagsStay(s.demux, event);
    IgnoredStays(s.demux, event, run);
  }

  lemma IgnoredStays(d: Demux, event: Event, run: RunId)
    requires event.run != Some(run) || run !in d.runSubscribers || run in d.ignoredRuns
    ensures run in PublishRun(d, event).ignoredRuns <==> run in d.ignoredRuns && !(event.run == Some(run) && event.terminal)
  {
  }

  /** Once the last event of a run has been published, the run is neither followed nor ignored. */
  lemma LastEventForgets(s: System, event: Event)
    requires Inv(s) && event.terminal && event.run.Some?
    ensures var d := Publish(s.demux, event);
      event.run.value !in d.ignoredRuns && event.run.value !in d.runSubscribers
  {
    assert RunOk(s, event.run.value);
  }

  // ---------- Every step ----------

  /** Leaving adds this run to the ignored ones, if the stream goes on and its last event was not seen. */
  lemma LeavingIgnores(d: Demux, run: RunId, id: ChannelId, terminalSeen: bool)
    requires id in d.channels
    ensures var t := UnsubscribeRun(d, run, id, terminalSeen);
      && t.ignoredRuns == (if !terminalSeen && d.Live() then d.ignoredRuns + {run} else d.ignoredRuns)
      && t.Live() == d.Live()
      && t.channels == d.channels[id := Complete(d.channels[id])]
  {
  }

  /** Taking the last event ends the run; taking another one leaves less to read. */
  lemma TakingKeepsLeft(k: Consumer, c: Channel, event: Event, published: seq<Event>, live: bool, ignored: bool)
    requires SeenOk(k) && Flow(k, c) <= published && c.inbox == [Value(event)] && k.phase == Awaiting
    requires LeftAt(k.phase, c, live, HasTerminal(published), ignored)
    ensures event.terminal ==> HasTerminal(published) && !ignored
    ensures !event.terminal ==> LeftAt(Idle, Taken(c), live, HasTerminal(published), ignored)
  {
    if event.terminal {
      assert Ahead(c)[0] == event;
      assert Flow(k, c)[|k.seen|] == published[|k.seen|] == event;
    } else {
      TakenAhead(c);
    }
  }

  lemma ResumeKeepsLeft(s: System, id: ChannelId)
    requires Inv(s) && Enabled(s, Resume(id)) && LeftOk(s, s.consumers[id].run)
    ensures LeftOk(Apply(s, Resume(id)), s.consumers[id].run)
  {
    assert ConsumerOk(s, id);
    var k, c := s.consumers[id], s.demux.channels[id];
    assert c.inbox == [c.inbox[0]];
    if c.inbox[0].Value? {
      TakingKeepsLeft(k, c, c.inbox[0].event, EventsOf(s.history, k.run), s.demux.Live(), k.run in s.demux.ignoredRuns);
    }
    ResumeIgnores(s, id);
  }

  lemma ResumeIgnores(s: System, id: ChannelId)
    requires Enabled(s, Resume(id))
    ensures var k, c, t := s.consumers[id], s.demux.channels[id], ApplyResume(s, id);
      && id in t.demux.channels && id in t.consumers && t.owners == s.owners && t.history == s.history
      && t.demux.Live() == s.demux.Live()
      && t.consumers[id].phase == (if !c.inbox[0].Value? then AfterEnd(c.inbox[0])
                                   else if c.inbox[0].event.terminal then Finished else Idle)
      && (Reading(t.consumers[id].phase) ==> t.demux.channels[id] == Taken(c))
      && t.demux.ignoredRuns == (if !c.inbox[0].Value? && s.demux.Live() then s.demux.ignoredRuns + {k.run}
                                 else s.demux.ignoredRuns)
  {
    var taken := s.demux.(channels := s.demux.channels[id := Taken(s.demux.channels[id])]);
    LeavingIgnores(taken, s.consumers[id].run, id, true);
    LeavingIgnores(taken, s.consumers[id].run, id, false);
  }

  /** Whether the run is ignored, and what else `LeftOk` depends on besides its consumer, stays. */
  ghost predicate RunStays(s: System, t: System, run: RunId) {
    && (run in t.demux.ignoredRuns <==> run in s.demux.ignoredRuns) && t.demux.Live() == s.demux.Live()
    && t.history == s.history && run in s.owners && run in t.owners && t.owners[run] == s.owners[run]
  }

  lemma ClaimElsewhere(s: System, q: RequestId, claimed: RunId, id: ChannelId, run: RunId)
    requires Enabled(s, Claim(q, claimed, id)) && run in s.owners
    ensures RunStays(s, Apply(s, Claim(q, claimed, id)), run)
  {
    SubscribeFlags(s.demux, claimed, id);
  }

  /** Another's resumption, leaving or claim concerns another run. */
  lemma OtherStepKeepsRun(s: System, step: Step, run: RunId)
    requires Inv(s) && Enabled(s, step) && run in s.owners && !step.PublishEvent?
    requires !step.StreamEnds? && !step.StreamFails? && !step.CloseEnds? && !step.CloseBegins?
    requires (step.CallNext? || step.Resume? || step.Leave?) ==> step.id != s.owners[run]
    ensures RunStays(s, Apply(s, step), run)
  {
    match step
    case Claim(q, claimed, other) => ClaimElsewhere(s, q, claimed, other, run);
    case Resume(other) =>
      assert ConsumerOk(s, other);
      ResumeIgnores(s, other);
    case Leave(other) =>
      assert ConsumerOk(s, other);
      LeavingIgnores(s.demux, s.consumers[other].run, other, false);
    case _ =>
  }

  lemma OthersKeepLeft(s: System, t: System, run: RunId)
    requires LeftOk(s, run) && RunStays(s, t, run) && SameFor(s, t, s.owners[run])
    ensures LeftOk(t, run)
  {
  }

  lemma EndsKeepLeft(s: System, step: Step, run: RunId)
    requires Inv(s) && Enabled(s, step) && LeftOk(s, run)
    requires step.StreamEnds? || step.StreamFails? || step.CloseEnds? || step.CloseBegins?
    ensures LeftOk(Apply(s, step), run)
  {
  }

  lemma PublishKeepsLeft(s: System, event: Event, run: RunId)
    requires EndsInv(s) && Enabled(s, PublishEvent(event)) && LeftOk(s, run) && run in s.owners
    ensures LeftOk(Apply(s, PublishEvent(event)), run)
  {
    var heard := s.(demux := Broadcast(s.demux, event));
    ListenersApart(s, heard);
    if Delivers(s, event) && event.run == Some(run) {
      assert RunOk(s, run) && ConsumerEnds(s, s.owners[run]);
      DeliveryKeepsLeft(heard, event, run);
    } else {
      OtherEventKeepsLeft(heard, event, run);
    }
  }

  lemma OwnStepKeepsLeft(s: System, step: Step, run: RunId)
    requires Inv(s) && Enabled(s, step) && LeftOk(s, run) && run in s.owners
    requires (step.CallNext? || step.Resume? || step.Leave?) && step.id == s.owners[run]
    ensures LeftOk(Apply(s, step), run)
  {
    var id := s.owners[run];
    assert RunOk(s, run) && ConsumerOk(s, id);
    match step
    case CallNext(_) => NextAhead(s.demux.channels[id]);
    case Resume(_) => ResumeKeepsLeft(s, id);
    case Leave(_) => LeavingIgnores(s.demux, run, id, false);
  }

  lemma StepKeepsLeft(s: System, step: Step, run: RunId)
    requires EndsInv(s) && Enabled(s, step) && LeftOk(s, run)
    ensures LeftOk(Apply(s, step), run)
  {
    if run !in s.owners {
      ClaimStarts(s, step, run);
    } else if step.PublishEvent? {
      PublishKeepsLeft(s, step.event, run);
    } else if step.StreamEnds? || step.StreamFails? || step.CloseEnds? || step.CloseBegins? {
      EndsKeepLeft(s, step, run);
    } else if (step.CallNext? || step.Resume? || step.Leave?) && step.id == s.owners[run] {
      OwnStepKeepsLeft(s, step, run);
    } else {
      assert RunOk(s, run);
      OtherStepAt(s, step, s.owners[run]);
      OtherStepKeepsRun(s, step, run);
      OthersKeepLeft(s, Apply(s, step), run);
    }
  }

  lemma ClaimStarts(s: System, step: Step, run: RunId)
    requires Enabled(s, step) && run !in s.owners
    ensures LeftOk(Apply(s, step), run)
  {
  }

  lemma {:induction false} RunKeepsLeft(s: System, steps: seq<Step>, run: RunId)
    requires EndsInv(s) && LeftOk(s, run) && Possible(s, steps)
    ensures EndsInv(RunSteps(s, steps)) && LeftOk(RunSteps(s, steps), run)
    decreases |steps|
  {
    if steps != [] {
      EndsKeep(s, steps[0]);
      StepKeepsLeft(s, steps[0], run);
      RunKeepsLeft(Apply(s, steps[0]), steps[1..], run);
    }
  }

  /**
   In every interleaving: once its consumer has stopped, a run is ignored until its last event, as long as the
   stream goes on; a run whose last event was seen, or still waits to be read, is not ignored; and no run is both
   ignored and followed.
  */
  lemma LeftRunsAreIgnored(capacity: nat, steps: seq<Step>, run: RunId)
    requires Possible(Initial(capacity), steps) && run in RunSteps(Initial(capacity), steps).owners
    ensures var s := RunSteps(Initial(capacity), steps);
      && s.owners[run] in s.consumers && s.owners[run] in s.demux.channels
      && var k, c := s.consumers[s.owners[run]], s.demux.channels[s.owners[run]];
      && (k.phase !in {Idle, Awaiting} && s.demux.Live() && !HasTerminal(EventsOf(s.history, run)) ==> run in s.demux.ignoredRuns)
      && (run in s.demux.ignoredRuns ==>
            && run !in s.demux.runSubscribers && k.phase != Finished
            && (k.phase in {Idle, Awaiting} ==> !HasTerminal(Delivered(c.inbox) + c.values)))
  {
    RunKeepsLeft(Initial(capacity), steps, run);
    var s := RunSteps(Initial(capacity), steps);
    assert RunOk(s, run) && ConsumerOk(s, s.owners[run]);
  }
}
