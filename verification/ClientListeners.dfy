/**
 Those who follow all events of the client: in every interleaving each of them hears the whole history
 from its subscription on, in order and without a gap, until its channel overflows or is closed.
*/
module ClientListeners {
  import opened Wrappers
  import opened EventChannel
  import opened ClientDemux
  import opened ClientProtocol

  /** What a listener has seen, then what was handed to it, then what waits in its channel. */
  ghost function Stream(k: Listener, c: Channel): seq<Event> {
    k.seen + Delivered(c.inbox) + c.values
  }

  /** The stream is an initial part of what was published; as long as the channel is subscribed and open it is all of it. */
  ghost predicate Hears(k: Listener, c: Channel, published: seq<Event>, subscribed: bool) {
    && Settled(k.phase, c)
    && Stream(k, c) <= published
    && (subscribed && !c.closed ==> Stream(k, c) == published)
  }

  ghost predicate ListenerOk(s: System, id: ChannelId) {
    id in s.listeners ==>
      var k := s.listeners[id];
      && id in s.demux.listening.channels
      && k.start <= |s.history|
      && Hears(k, s.demux.listening.channels[id], s.history[k.start..], id in s.demux.listening.subscribers)
  }

  // ---------- One listener and its channel ----------

  lemma PushHeard(k: Listener, c: Channel, published: seq<Event>, event: Event)
    requires Hears(k, c, published, true)
    ensures Hears(k, Push(c, event), published + [event], !Push(c, event).closed)
  {
    var p := Push(c, event);
    assert published <= published + [event];
    if !c.closed {
      if c.waiters > 0 || |c.values| < c.capacity {
        assert Stream(k, p) == Stream(k, c) + [event];
      } else {
        assert Repeat(Rejected(Overflow), 0) == [];
        assert Stream(k, c) == Stream(k, p) + c.values;
      }
    }
  }

  lemma CompleteHeard(k: Listener, c: Channel, published: seq<Event>, subscribed: bool)
    requires Hears(k, c, published, subscribed)
    ensures Hears(k, Complete(c), published, false)
  {
    RepeatOne(Done);
    assert Repeat(Done, 0) == [];
  }

  lemma FailHeard(k: Listener, c: Channel, published: seq<Event>, subscribed: bool)
    requires Hears(k, c, published, subscribed)
    ensures Hears(k, Fail(c, StreamFailure), published, false)
  {
    RepeatOne(Rejected(StreamFailure));
    assert Repeat(Rejected(StreamFailure), 0) == [];
    assert k.seen + Delivered(c.inbox) <= Stream(k, c);
  }

  lemma NextHeard(k: Listener, c: Channel, published: seq<Event>, subscribed: bool)
    requires Hears(k, c, published, subscribed) && k.phase == Idle
    ensures Hears(k.(phase := Awaiting), Next(c), published, subscribed)
  {
    assert Stream(k.(phase := Awaiting), Next(c)) == Stream(k, c);
  }

  /** Taking the handed outcome moves an event from the channel to what has been seen, and nothing else. */
  lemma TakenHeard(k: Listener, c: Channel, after: Listener, published: seq<Event>, subscribed: bool)
    requires Hears(k, c, published, subscribed) && k.phase == Awaiting && c.inbox != [] && after.phase != Awaiting
    requires after.seen == k.seen + Delivered(c.inbox)
    ensures Hears(after, Taken(c), published, subscribed)
  {
    assert Taken(c).inbox == [];
    assert Stream(after, Taken(c)) == Stream(k, c);
  }

  lemma TakeHeard(d: Demux, id: ChannelId, k: Listener, published: seq<Event>)
    requires id in d.listening.channels && d.listening.channels[id].inbox != [] && k.phase == Awaiting
    requires Hears(k, d.listening.channels[id], published, id in d.listening.subscribers)
    ensures var (listening, after) := ListenerTakes(d, id, k);
      && after.start == k.start && id in listening.channels
      && Hears(after, listening.channels[id], published, id in listening.subscribers)
  {
    var c, after := d.listening.channels[id], ListenerTakes(d, id, k).1;
    TakenHeard(k, c, after, published, id in d.listening.subscribers);
    if !c.inbox[0].Value? {
      CompleteHeard(after, Taken(c), published, id in d.listening.subscribers);
    }
  }

  // ---------- Every step ----------

  lemma PublishKeepsListener(s: System, event: Event, id: ChannelId)
    requires ListenerOk(s, id) && Enabled(s, PublishEvent(event))
    ensures ListenerOk(Apply(s, PublishEvent(event)), id)
  {
    if id in s.listeners {
      var k, c := s.listeners[id], s.demux.listening.channels[id];
      assert (s.history + [event])[k.start..] == s.history[k.start..] + [event];
      PublishRunLeaves(Broadcast(s.demux, event), event);
      if id in s.demux.listening.subscribers {
        PushHeard(k, c, s.history[k.start..], event);
      }
    }
  }

  lemma PublishRunLeaves(d: Demux, event: Event)
    ensures PublishRun(d, event).listening == d.listening
  {
  }

  lemma EndKeepsListener(s: System, after: Demux, id: ChannelId)
    requires ListenerOk(s, id) && EndsStream(s, after)
    ensures ListenerOk(s.(demux := after), id)
  {
    if id in s.listeners {
      var k, c := s.listeners[id], s.demux.listening.channels[id];
      CompleteHeard(k, c, s.history[k.start..], id in s.demux.listening.subscribers);
      FailHeard(k, c, s.history[k.start..], id in s.demux.listening.subscribers);
    }
  }

  lemma OwnStepKeepsListener(s: System, step: Step)
    requires OfListener(step) && Enabled(s, step) && ListenerOk(s, step.id)
    ensures ListenerOk(Apply(s, step), step.id)
  {
    match step
    case Listen(id) =>
      assert s.history[|s.history|..] == [];
      assert Repeat(Done, 0) == [] && Repeat(Rejected(StreamFailure), 0) == [];
    case ListenerCallsNext(id) =>
      var k := s.listeners[id];
      NextHeard(k, s.demux.listening.channels[id], s.history[k.start..], id in s.demux.listening.subscribers);
    case ListenerResumes(id) =>
      var k := s.listeners[id];
      TakeHeard(s.demux, id, k, s.history[k.start..]);
    case ListenerLeaves(id) =>
      var k, c := s.listeners[id], s.demux.listening.channels[id];
      assert Stream(k.(phase := Left), c) == Stream(k, c);
      CompleteHeard(k.(phase := Left), c, s.history[k.start..], id in s.demux.listening.subscribers);
  }

  /** Every other step leaves the listeners alone. */
  lemma OtherStepLeaves(s: System, step: Step)
    requires Enabled(s, step) && !OfListener(step)
    requires !step.PublishEvent? && !step.StreamEnds? && !step.StreamFails? && !step.CloseEnds?
    ensures var t := Apply(s, step);
      t.listeners == s.listeners && t.history == s.history && t.demux.listening == s.demux.listening
  {
    if step.Resume? {
      ResumeLeaves(s, step.id);
    }
  }

  lemma ResumeLeaves(s: System, id: ChannelId)
    requires Enabled(s, Resume(id))
    ensures var t := ApplyResume(s, id);
      t.listeners == s.listeners && t.history == s.history && t.demux.listening == s.demux.listening
  {
  }

  lemma StepKeepsListener(s: System, step: Step, id: ChannelId)
    requires ListenerOk(s, id) && Enabled(s, step)
    ensures ListenerOk(Apply(s, step), id)
  {
    if OfListener(step) {
      if step.id == id {
        OwnStepKeepsListener(s, step);
      } else {
        StrangerStepLeaves(s, step, id);
      }
    } else if step.PublishEvent? {
      PublishKeepsListener(s, step.event, id);
    } else if step.StreamEnds? || step.StreamFails? || step.CloseEnds? {
      EndKeepsListener(s, Apply(s, step).demux, id);
    } else {
      OtherStepLeaves(s, step);
    }
  }

  lemma StrangerStepLeaves(s: System, step: Step, id: ChannelId)
    requires OfListener(step) && Enabled(s, step) && step.id != id && ListenerOk(s, id)
    ensures ListenerOk(Apply(s, step), id)
  {
  }

  lemma {:induction false} RunKeepsListener(s: System, steps: seq<Step>, id: ChannelId)
    requires ListenerOk(s, id) && Possible(s, steps)
    ensures ListenerOk(RunSteps(s, steps), id)
    decreases |steps|
  {
    if steps != [] {
      StepKeepsListener(s, steps[0], id);
      RunKeepsListener(Apply(s, steps[0]), steps[1..], id);
    }
  }

  /**
   In every interleaving, what a listener has seen is an initial part of the history since it subscribed.
   As long as its channel is subscribed and open, seen, handed over and waiting events are all of that history.
  */
  lemma ListenersHearAll(capacity: nat, steps: seq<Step>, id: ChannelId)
    requires Possible(Initial(capacity), steps)
    requires id in RunSteps(Initial(capacity), steps).listeners
    ensures var s := RunSteps(Initial(capacity), steps);
      var k := s.listeners[id];
      && k.start <= |s.history| && k.seen <= s.history[k.start..]
      && id in s.demux.listening.channels
      && (id in s.demux.listening.subscribers && !s.demux.listening.channels[id].closed ==>
            Stream(k, s.demux.listening.channels[id]) == s.history[k.start..])
  {
    RunKeepsListener(Initial(capacity), steps, id);
    var s := RunSteps(Initial(capacity), steps);
    var k := s.listeners[id];
    assert k.seen <= Stream(k, s.demux.listening.channels[id]);
  }
}
