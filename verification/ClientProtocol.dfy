/**
 Every interleaving of the client: requests that start and are answered, the event pump, consumers
 that read, wait, finish or leave, and the ends of the stream.  Each step is one stretch of code
 between two suspension points.
*/
module ClientProtocol {
  import opened Wrappers
  import opened EventChannel
  import opened ClientDemux

  /**
   Where a reader is: between two reads, in one, or done: with the last event or the end of the stream, with a
   stream that ended before the last event of its run, with an error, or on its own account.
  */
  datatype Phase = Idle | Awaiting | Finished | CutShort | Errored(failure: Failure) | Left

  /** A consumer of one run: the events it has been handed, since the request made at `start`. */
  datatype Consumer = Consumer(run: RunId, start: nat, seen: seq<Event>, phase: Phase)

  /** Someone who follows all events, from position `start` of the history on. */
  datatype Listener = Listener(start: nat, seen: seq<Event>, phase: Phase)

  type RequestId = nat

  datatype System = System(
    demux: Demux,
    history: seq<Event>,
    requests: map<RequestId, nat>,
    consumers: map<ChannelId, Consumer>,
    owners: map<RunId, ChannelId>,  // who has claimed a run
    listeners: map<ChannelId, Listener>)

  datatype Step =
    | Start(request: RequestId)
    | RequestFails(request: RequestId)
    | Claim(request: RequestId, run: RunId, id: ChannelId)
    | PublishEvent(event: Event)
    | StreamEnds
    | StreamFails
    | CloseBegins
    | CloseEnds
    | CallNext(id: ChannelId)
    | Resume(id: ChannelId)
    | Leave(id: ChannelId)
    | Listen(id: ChannelId)
    | ListenerCallsNext(id: ChannelId)
    | ListenerResumes(id: ChannelId)
    | ListenerLeaves(id: ChannelId)

  ghost function EventsOf(history: seq<Event>, run: RunId): seq<Event> {
    if history == [] then []
    else
      var last := history[|history| - 1];
      EventsOf(history[..|history| - 1], run) + (if last.run == Some(run) then [last] else [])
  }

  /** A run id is fresh for a request if the run had no event before it and nobody consumes it. */
  ghost predicate FreshRun(s: System, request: RequestId, run: RunId) {
    && request in s.requests && s.requests[request] <= |s.history|
    && EventsOf(s.history[..s.requests[request]], run) == []
    && run !in s.owners
  }

  ghost predicate Enabled(s: System, step: Step) {
    match step
    case Start(q) => q !in s.requests
    case RequestFails(q) => q in s.requests
    case Claim(q, run, id) => FreshRun(s, q, run) && id !in s.demux.channels
    case PublishEvent(_) => !s.demux.streamEnded && !s.demux.streamFailed
    case StreamEnds => !s.demux.streamEnded && !s.demux.streamFailed
    case StreamFails => !s.demux.streamEnded && !s.demux.streamFailed
    case CloseBegins => true
    case CloseEnds => s.demux.closed
    case CallNext(id) => id in s.consumers && id in s.demux.channels && s.consumers[id].phase == Idle
    case Resume(id) =>
      id in s.consumers && id in s.demux.channels && s.consumers[id].phase == Awaiting && s.demux.channels[id].inbox != []
    case Leave(id) => id in s.consumers && id in s.demux.channels && s.consumers[id].phase == Idle
    case Listen(id) => id !in s.demux.listening.channels
    case ListenerCallsNext(id) => id in s.listeners && id in s.demux.listening.channels && s.listeners[id].phase == Idle
    case ListenerResumes(id) =>
      id in s.listeners && id in s.demux.listening.channels && s.listeners[id].phase == Awaiting && s.demux.listening.channels[id].inbox != []
    case ListenerLeaves(id) => id in s.listeners && id in s.demux.listening.channels && s.listeners[id].phase == Idle
  }

  ghost function Apply(s: System, step: Step): System
    requires Enabled(s, step)
  {
    match step
    case Start(q) => s.(demux := BeginRequest(s.demux), requests := s.requests[q := |s.history|])
    case RequestFails(q) => s.(demux := EndRequest(s.demux), requests := s.requests - {q})
    case Claim(q, run, id) =>
      System(EndRequest(SubscribeRun(s.demux, run, id)), s.history, s.requests - {q},
             s.consumers[id := Consumer(run, s.requests[q], [], Idle)], s.owners[run := id], s.listeners)
    case PublishEvent(event) => s.(demux := Publish(s.demux, event), history := s.history + [event])
    case StreamEnds => s.(demux := EndStream(s.demux))
    case StreamFails => s.(demux := FailStream(s.demux))
    case CloseBegins => s.(demux := BeginClose(s.demux))
    case CloseEnds => s.(demux := CompleteSubscribers(s.demux))
    case CallNext(id) =>
      s.(demux := s.demux.(channels := s.demux.channels[id := Next(s.demux.channels[id])]),
         consumers := s.consumers[id := s.consumers[id].(phase := Awaiting)])
    case Resume(id) => ApplyResume(s, id)
    case Leave(id) =>
      s.(demux := UnsubscribeRun(s.demux, s.consumers[id].run, id, false),
         consumers := s.consumers[id := s.consumers[id].(phase := Left)])
    case _ =>
      var heard := ListenerStep(s, step);
      WithListener(s, step.id, heard.0, heard.1)
  }

  ghost function WithListener(s: System, id: ChannelId, listening: Listening, k: Listener): System {
    s.(demux := s.demux.(listening := listening), listeners := s.listeners[id := k])
  }

  predicate OfListener(step: Step) {
    step.Listen? || step.ListenerCallsNext? || step.ListenerResumes? || step.ListenerLeaves?
  }

  /** What a step of a listener makes of the channels of all listeners, and of this one. */
  ghost function ListenerStep(s: System, step: Step): (Listening, Listener)
    requires OfListener(step) && Enabled(s, step)
  {
    match step
    case Listen(id) => (SubscribeAll(s.demux, id).listening, Listener(|s.history|, [], Idle))
    case ListenerCallsNext(id) =>
      (Heard(s.demux.listening, id, Next(s.demux.listening.channels[id])), s.listeners[id].(phase := Awaiting))
    case ListenerResumes(id) => ListenerTakes(s.demux, id, s.listeners[id])
    case ListenerLeaves(id) => (UnsubscribeAll(s.demux, id).listening, s.listeners[id].(phase := Left))
  }

  ghost function Heard(listening: Listening, id: ChannelId, c: Channel): Listening {
    listening.(channels := listening.channels[id := c])
  }

  /** A listener takes a resolved outcome; it stops at an error or at the end of its stream. */
  ghost function ListenerTakes(d: Demux, id: ChannelId, k: Listener): (Listening, Listener)
    requires id in d.listening.channels && d.listening.channels[id].inbox != []
  {
    var c := d.listening.channels[id];
    var taken := Heard(d.listening, id, c.(inbox := c.inbox[1..]));
    var left := UnsubscribeAll(d.(listening := taken), id).listening;
    match c.inbox[0]
    case Value(event) => (taken, k.(seen := k.seen + [event], phase := Idle))
    case Done => (left, k.(phase := Finished))
    case Rejected(failure) => (left, k.(phase := Errored(failure)))
  }

  /** How a run ends for a consumer that is handed no event. */
  ghost function AfterEnd(outcome: Outcome): Phase
    requires !outcome.Value?
  {
    if outcome.Done? then CutShort else Errored(outcome.failure)
  }

  /** The consumer takes a resolved outcome: an event, perhaps the terminal one, an error, or the end. */
  ghost function ApplyResume(s: System, id: ChannelId): System
    requires Enabled(s, Resume(id))
  {
    var k, c := s.consumers[id], s.demux.channels[id];
    var taken := s.demux.(channels := s.demux.channels[id := c.(inbox := c.inbox[1..])]);
    match c.inbox[0]
    case Value(event) =>
      if event.terminal then
        s.(demux := UnsubscribeRun(taken, k.run, id, true),
           consumers := s.consumers[id := k.(seen := k.seen + [event], phase := Finished)])
      else
        s.(demux := taken, consumers := s.consumers[id := k.(seen := k.seen + [event], phase := Idle)])
    case _ =>
      s.(demux := UnsubscribeRun(taken, k.run, id, false), consumers := s.consumers[id := k.(phase := AfterEnd(c.inbox[0]))])
  }

  ghost function Initial(capacity: nat): System {
    System(NewDemux(capacity), [], map[], map[], map[], map[])
  }

  ghost predicate Possible(s: System, steps: seq<Step>)
    decreases |steps|
  {
    steps == [] || (Enabled(s, steps[0]) && Possible(Apply(s, steps[0]), steps[1..]))
  }

  ghost function RunSteps(s: System, steps: seq<Step>): System
    requires Possible(s, steps)
    decreases |steps|
  {
    if steps == [] then s else RunSteps(Apply(s, steps[0]), steps[1..])
  }

  // ---------- One consumer and its channel ----------

  ghost function Delivered(inbox: seq<Outcome>): seq<Event> {
    if |inbox| == 1 && inbox[0].Value? then [inbox[0].event] else []
  }

  /** What the consumer has seen, then what was handed to it, then what waits in the channel. */
  ghost function Flow(k: Consumer, c: Channel): seq<Event> {
    k.seen + Delivered(c.inbox) + c.values
  }

  ghost predicate SeenOk(k: Consumer) {
    if k.phase == Finished then
      k.seen != [] && k.seen[|k.seen| - 1].terminal && !HasTerminal(k.seen[..|k.seen| - 1])
    else !HasTerminal(k.seen)
  }

  /** Only a call of `next` that is awaited is outstanding or has been answered. */
  ghost predicate Settled(phase: Phase, c: Channel) {
    if phase == Awaiting then
      (c.waiters == 1 && c.inbox == [] && c.values == [] && !c.closed) || (c.waiters == 0 && |c.inbox| == 1)
    else c.waiters == 0 && c.inbox == []
  }

  /** The flow is an initial part of the run's events; while subscribed it is all of them so far. */
  ghost predicate InOrder(k: Consumer, c: Channel, published: seq<Event>, subscribed: bool) {
    && SeenOk(k) && Settled(k.phase, c)
    && Flow(k, c) <= published
    && (subscribed ==> !c.closed && Flow(k, c) == published && !HasTerminal(published))
  }

  lemma HasTerminalSnoc(events: seq<Event>, event: Event)
    ensures HasTerminal(events + [event]) <==> HasTerminal(events) || event.terminal
  {
    assert (events + [event])[..|events + [event]| - 1] == events;
  }

  /** A consumer that waits is handed the event. */
  lemma PushToWaiting(k: Consumer, c: Channel, published: seq<Event>, event: Event)
    requires InOrder(k, c, published, true) && c.waiters > 0
    ensures Flow(k, Push(c, event)) == published + [event]
    ensures Settled(k.phase, Push(c, event)) && Push(c, event).waiters == 0
  {
  }

  /** With room in the channel, the event is kept. */
  lemma PushToBuffer(k: Consumer, c: Channel, published: seq<Event>, event: Event)
    requires InOrder(k, c, published, true) && c.waiters == 0 && |c.values| < c.capacity
    ensures Flow(k, Push(c, event)) == published + [event]
    ensures Settled(k.phase, Push(c, event)) && Push(c, event).waiters == 0
  {
    assert Flow(k, Push(c, event)) == Flow(k, c) + [event];
  }

  /** Without room, the channel fails and keeps nothing. */
  lemma PushOverflows(k: Consumer, c: Channel, published: seq<Event>, event: Event)
    requires InOrder(k, c, published, true) && c.waiters == 0 && |c.values| >= c.capacity
    ensures Push(c, event).closed && InOrder(k, Push(c, event), published + [event], false)
  {
    assert Repeat(Rejected(Overflow), 0) == [];
    var p := Push(c, event);
    assert Flow(k, p) == k.seen + Delivered(c.inbox);
    assert Flow(k, c) == Flow(k, p) + c.values;
  }

  lemma PushSubscribed(k: Consumer, c: Channel, published: seq<Event>, event: Event)
    requires InOrder(k, c, published, true)
    ensures event.terminal ==> InOrder(k, Complete(Push(c, event)), published + [event], false)
    ensures !event.terminal ==> InOrder(k, Push(c, event), published + [event], !Push(c, event).closed)
    ensures InOrder(k, Push(c, event), published + [event], false)
  {
    if c.waiters == 0 && |c.values| >= c.capacity {
      PushOverflows(k, c, published, event);
    } else {
      if c.waiters > 0 {
        PushToWaiting(k, c, published, event);
      } else {
        PushToBuffer(k, c, published, event);
      }
      HasTerminalSnoc(published, event);
      CompleteInOrder(k, Push(c, event), published + [event], false);
    }
  }

  lemma MoreEvents(k: Consumer, c: Channel, published: seq<Event>, event: Event)
    requires InOrder(k, c, published, false)
    ensures InOrder(k, c, published + [event], false)
  {
  }

  lemma RepeatOne(outcome: Outcome)
    ensures Repeat(outcome, 1) == [outcome]
  {
    assert Repeat(outcome, 0) == [];
  }

  lemma CompleteInOrder(k: Consumer, c: Channel, published: seq<Event>, subscribed: bool)
    requires InOrder(k, c, published, subscribed)
    ensures InOrder(k, Complete(c), published, false)
  {
    RepeatOne(Done);
    assert Repeat(Done, 0) == [];
  }

  lemma FailInOrder(k: Consumer, c: Channel, published: seq<Event>, subscribed: bool)
    requires InOrder(k, c, published, subscribed)
    ensures InOrder(k, Fail(c, StreamFailure), published, false)
  {
    RepeatOne(Rejected(StreamFailure));
    assert Repeat(Rejected(StreamFailure), 0) == [];
    assert k.seen + Delivered(c.inbox) <= Flow(k, c);
  }

  lemma NextInOrder(k: Consumer, c: Channel, published: seq<Event>, subscribed: bool)
    requires InOrder(k, c, published, subscribed) && k.phase == Idle
    ensures InOrder(k.(phase := Awaiting), Next(c), published, subscribed)
  {
    if |c.values| > 0 {
      assert Flow(k.(phase := Awaiting), Next(c)) == Flow(k, c);
    }
  }

  ghost function Taken(c: Channel): Channel
    requires c.inbox != []
  {
    c.(inbox := c.inbox[1..])
  }

  lemma TakeEvent(k: Consumer, c: Channel, published: seq<Event>, subscribed: bool, event: Event)
    requires InOrder(k, c, published, subscribed) && k.phase == Awaiting && c.inbox != [] && c.inbox[0] == Value(event)
    ensures event.terminal ==>
      InOrder(k.(seen := k.seen + [event], phase := Finished), Complete(Taken(c)), published, false)
    ensures !event.terminal ==> InOrder(k.(seen := k.seen + [event], phase := Idle), Taken(c), published, subscribed)
  {
    var phase := if event.terminal then Finished else Idle;
    var after := k.(seen := k.seen + [event], phase := phase);
    assert Taken(c).inbox == [];
    assert Flow(after, Taken(c)) == Flow(k, c);
    HasTerminalSnoc(k.seen, event);
    assert after.seen[..|after.seen| - 1] == k.seen;
    assert InOrder(after, Taken(c), published, subscribed);
    CompleteInOrder(after, Taken(c), published, subscribed);
  }

  lemma TakeEnd(k: Consumer, c: Channel, published: seq<Event>, subscribed: bool)
    requires InOrder(k, c, published, subscribed) && k.phase == Awaiting && c.inbox != [] && !c.inbox[0].Value?
    ensures InOrder(k.(phase := AfterEnd(c.inbox[0])), Complete(Taken(c)), published, false)
  {
    var after := k.(phase := AfterEnd(c.inbox[0]));
    assert Flow(after, Taken(c)) == Flow(k, c);
    CompleteInOrder(after, Taken(c), published, subscribed);
  }

  lemma {:induction false} PushAllOpen(c: Channel, events: seq<Event>)
    requires !c.closed && c.waiters == 0 && c.values == [] && |events| <= c.capacity
    ensures PushAll(c, events) == c.(values := events)
  {
    if events != [] {
      PushAllOpen(c, events[..|events| - 1]);
    }
  }

  lemma {:induction false} PushAllClosed(c: Channel, events: seq<Event>)
    requires c.closed
    ensures PushAll(c, events) == c
  {
    if events != [] {
      PushAllClosed(c, events[..|events| - 1]);
    }
  }

  /** A new subscriber starts in order, with every event kept for its run, or with an error. */
  lemma FilledInOrder(d: Demux, run: RunId, start: nat, published: seq<Event>)
    requires |Pending(d, run)| <= d.capacity
    requires d.Live() ==> run in d.pendingFailures || Pending(d, run) == published
    ensures var subscribed := !(run in d.pendingFailures || HasTerminal(Pending(d, run)) || Filled(d, run).closed);
      InOrder(Consumer(run, start, [], Idle), Filled(d, run), published, subscribed)
  {
    assert Repeat(Done, 0) == [] && Repeat(Rejected(StreamFailure), 0) == [] && Repeat(Rejected(Overflow), 0) == [];
    if d.Live() {
      PushAllOpen(CreateChannel(d), Pending(d, run));
    } else {
      PushAllClosed(CreateChannel(d), Pending(d, run));
    }
  }

  // ---------- The whole client ----------

  ghost predicate Subscribed(d: Demux, run: RunId, id: ChannelId) {
    run in d.runSubscribers && id in d.runSubscribers[run]
  }

  /** What holds of one consumer. */
  ghost predicate ConsumerOk(s: System, id: ChannelId) {
    id in s.consumers ==>
      var k := s.consumers[id];
      && id in s.demux.channels
      && k.run in s.owners && s.owners[k.run] == id
      && k.start <= |s.history| && EventsOf(s.history[..k.start], k.run) == []
      && InOrder(k, s.demux.channels[id], EventsOf(s.history, k.run), Subscribed(s.demux, k.run, id))
  }

  /** What holds of one run: it has at most its owner as subscriber, and few enough events are kept. */
  ghost predicate RunOk(s: System, run: RunId) {
    && (run in s.demux.ignoredRuns ==> run in s.owners && run !in s.demux.runSubscribers)
    && (run in s.demux.runSubscribers ==> run in s.owners && s.demux.runSubscribers[run] == {s.owners[run]})
    && (run in s.owners ==> s.owners[run] in s.consumers && s.consumers[s.owners[run]].run == run)
    && |Pending(s.demux, run)| <= s.demux.capacity
    && (EventsOf(s.history, run) == [] ==> Pending(s.demux, run) == [])
  }

  /** Until it is claimed, a run of a request in flight has all its events kept, or too many to keep. */
  ghost predicate BufferOk(s: System, request: RequestId, run: RunId) {
    FreshRun(s, request, run) && s.demux.Live() ==>
      run in s.demux.pendingFailures || Pending(s.demux, run) == EventsOf(s.history, run)
  }

  ghost predicate RequestOk(s: System, request: RequestId) {
    request in s.requests ==> s.requests[request] <= |s.history|
  }

  ghost predicate Inv(s: System) {
    && s.demux.channels.Keys == s.consumers.Keys
    && s.demux.pendingRequests == |s.requests|
    && (forall q :: RequestOk(s, q))
    && (forall c :: ConsumerOk(s, c))
    && (forall r :: RunOk(s, r))
    && (forall q, r :: BufferOk(s, q, r))
  }

  // ---------- Every step keeps the invariant ----------

  lemma EventsOfSnoc(history: seq<Event>, event: Event, run: RunId)
    ensures EventsOf(history + [event], run) == EventsOf(history, run) + (if event.run == Some(run) then [event] else [])
  {
    assert (history + [event])[..|history + [event]| - 1] == history;
  }

  lemma StartKeeps(s: System, q: RequestId)
    requires Inv(s) && Enabled(s, Start(q))
    ensures Inv(Apply(s, Start(q)))
  {
    var t := Apply(s, Start(q));
    assert s.history[..|s.history|] == s.history;
    forall q' ensures RequestOk(t, q') {
      assert RequestOk(s, q');
    }
    forall c ensures ConsumerOk(t, c) {
      assert ConsumerOk(s, c);
    }
    forall r ensures RunOk(t, r) {
      assert RunOk(s, r);
    }
    forall q', r ensures BufferOk(t, q', r) {
      assert BufferOk(s, q', r);
      assert RunOk(s, r);
    }
  }

  lemma FewerRequests(s: System, q: RequestId)
    requires q in s.requests
    ensures |s.requests - {q}| == |s.requests| - 1
  {
    assert (s.requests - {q}).Keys == s.requests.Keys - {q};
    assert |s.requests.Keys| == |s.requests| && |(s.requests - {q}).Keys| == |s.requests - {q}|;
  }

  lemma NoRequests(s: System, q: RequestId)
    requires q in s.requests
    ensures |s.requests| > 0
  {
    assert q in s.requests.Keys;
  }

  /** Ending a request loses nothing that another request in flight could still claim. */
  lemma EndRequestKeeps(s: System, q: RequestId)
    requires Inv(s) && q in s.requests
    ensures Inv(s.(demux := EndRequest(s.demux), requests := s.requests - {q}))
  {
    var t := s.(demux := EndRequest(s.demux), requests := s.requests - {q});
    FewerRequests(s, q);
    forall q' ensures RequestOk(t, q') {
      assert RequestOk(s, q');
    }
    forall c ensures ConsumerOk(t, c) {
      assert ConsumerOk(s, c);
    }
    forall r ensures RunOk(t, r) {
      assert RunOk(s, r);
    }
    forall q', r ensures BufferOk(t, q', r) {
      assert BufferOk(s, q', r);
      if q' in t.requests {
        NoRequests(t, q');
      }
    }
  }

  /** The state just after a claim subscribed its channel and before the request is counted off. */
  ghost function AfterSubscribe(s: System, q: RequestId, run: RunId, id: ChannelId): System
    requires q in s.requests
  {
    s.(demux := SubscribeRun(s.demux, run, id),
       consumers := s.consumers[id := Consumer(run, s.requests[q], [], Idle)],
       owners := s.owners[run := id])
  }

  lemma SubscribesIfOpen(d: Demux, run: RunId, id: ChannelId)
    requires run !in d.runSubscribers
    ensures SubscribeRun(d, run, id).channels == d.channels[id := Filled(d, run)]
    ensures Subscribed(SubscribeRun(d, run, id), run, id)
       <==> !(run in d.pendingFailures || HasTerminal(Pending(d, run)) || Filled(d, run).closed)
  {
  }

  lemma SubscribedStarts(s: System, q: RequestId, run: RunId, id: ChannelId)
    requires FreshRun(s, q, run) && id !in s.demux.channels && RunOk(s, run) && BufferOk(s, q, run)
    ensures ConsumerOk(AfterSubscribe(s, q, run, id), id)
  {
    FilledInOrder(s.demux, run, s.requests[q], EventsOf(s.history, run));
    SubscribesIfOpen(s.demux, run, id);
  }

  lemma SubscribeConsumers(s: System, q: RequestId, run: RunId, id: ChannelId, c: ChannelId)
    requires FreshRun(s, q, run) && id !in s.demux.channels
    requires ConsumerOk(s, c) && RunOk(s, run) && BufferOk(s, q, run)
    ensures ConsumerOk(AfterSubscribe(s, q, run, id), c)
  {
    if c == id {
      SubscribedStarts(s, q, run, id);
    }
  }

  lemma SubscribeKeepsRun(s: System, q: RequestId, run: RunId, id: ChannelId, r: RunId)
    requires FreshRun(s, q, run) && id !in s.demux.channels && s.demux.channels.Keys == s.consumers.Keys
    requires RunOk(s, r) && RunOk(s, run)
    ensures RunOk(AfterSubscribe(s, q, run, id), r)
  {
    SubscribeChanges(s.demux, run, id, r);
  }

  /** A claim of a run that nobody has subscribed to leaves the other runs as they are. */
  lemma SubscribeChanges(d: Demux, run: RunId, id: ChannelId, r: RunId)
    requires run !in d.runSubscribers
    ensures var t := SubscribeRun(d, run, id);
      && t.capacity == d.capacity && t.ignoredRuns == d.ignoredRuns - {run}
      && Pending(t, r) == (if r == run then [] else Pending(d, r))
      && (r in t.runSubscribers ==> if r == run then t.runSubscribers[r] == {id}
                                    else r in d.runSubscribers && t.runSubscribers[r] == d.runSubscribers[r])
  {
  }

  lemma SubscribeKeepsBuffer(s: System, q: RequestId, run: RunId, id: ChannelId, q': RequestId, r: RunId)
    requires Inv(s) && FreshRun(s, q, run) && id !in s.demux.channels
    ensures BufferOk(AfterSubscribe(s, q, run, id), q', r)
  {
    assert BufferOk(s, q', r);
  }

  lemma SubscribeKeeps(s: System, q: RequestId, run: RunId, id: ChannelId)
    requires Inv(s) && FreshRun(s, q, run) && id !in s.demux.channels
    ensures Inv(AfterSubscribe(s, q, run, id))
  {
    var t := AfterSubscribe(s, q, run, id);
    forall q' ensures RequestOk(t, q') {
      assert RequestOk(s, q');
    }
    forall c ensures ConsumerOk(t, c) {
      assert ConsumerOk(s, c) && RunOk(s, run) && BufferOk(s, q, run);
      SubscribeConsumers(s, q, run, id, c);
    }
    forall r ensures RunOk(t, r) {
      assert RunOk(s, r) && RunOk(s, run);
      SubscribeKeepsRun(s, q, run, id, r);
    }
    forall q', r ensures BufferOk(t, q', r) {
      SubscribeKeepsBuffer(s, q, run, id, q', r);
    }
  }

  lemma ClaimKeeps(s: System, q: RequestId, run: RunId, id: ChannelId)
    requires Inv(s) && Enabled(s, Claim(q, run, id))
    ensures Inv(Apply(s, Claim(q, run, id)))
  {
    SubscribeKeeps(s, q, run, id);
    EndRequestKeeps(AfterSubscribe(s, q, run, id), q);
  }

  // ----- Publishing -----

  /** What only concerns the listeners leaves consumers and runs as they are. */
  lemma ListenersApart(s: System, t: System)
    requires Inv(s) && t == s.(demux := s.demux.(listening := t.demux.listening),
                               listeners := t.listeners)
    ensures Inv(t)
  {
    forall q ensures RequestOk(t, q) {
      assert RequestOk(s, q);
    }
    forall c ensures ConsumerOk(t, c) {
      assert ConsumerOk(s, c);
    }
    forall r ensures RunOk(t, r) {
      assert RunOk(s, r);
    }
    forall q, r ensures BufferOk(t, q, r) {
      assert BufferOk(s, q, r);
    }
  }

  /** After the listeners, the event goes where its run leads it. */
  ghost function Published(s: System, event: Event): System {
    s.(demux := PublishRun(s.demux, event), history := s.history + [event])
  }

  /** With one subscriber, publishing to a run pushes into that channel alone. */
  lemma PublishToOwner(d: Demux, run: RunId, event: Event, id: ChannelId)
    requires event.run == Some(run) && run !in d.ignoredRuns
    requires run in d.runSubscribers && d.runSubscribers[run] == {id} && id in d.channels
    ensures var after, pushed := PublishRun(d, event), Push(d.channels[id], event);
      && after.channels == d.channels[id := if event.terminal then Complete(pushed) else pushed]
      && after.runSubscribers == (if event.terminal || pushed.closed then d.runSubscribers - {run} else d.runSubscribers)
      && after.ignoredRuns == (if pushed.closed && !event.terminal then d.ignoredRuns + {run} else d.ignoredRuns)
      && after.pendingEvents == d.pendingEvents && after.pendingFailures == d.pendingFailures
  {
    var all := PushTo(d.channels, {id}, event);
    assert StillOpen(all, {id}) == if all[id].closed then {} else {id};
    assert d.runSubscribers[run := {id}] == d.runSubscribers;
    assert event.terminal && all[id].closed ==> Complete(all[id]) == all[id];
  }

  ghost predicate Delivers(s: System, event: Event) {
    event.run.Some? && event.run.value in s.demux.runSubscribers && event.run.value !in s.demux.ignoredRuns
  }

  lemma PublishElsewhere(s: System, event: Event)
    requires !Delivers(s, event)
    ensures var after := PublishRun(s.demux, event);
      after.channels == s.demux.channels && after.runSubscribers == s.demux.runSubscribers
      && after.ignoredRuns <= s.demux.ignoredRuns
  {
  }

  lemma PublishKeepsConsumer(s: System, event: Event, c: ChannelId)
    requires ConsumerOk(s, c) && (c in s.consumers ==> RunOk(s, s.consumers[c].run)) && DeliversToOwner(s, event)
    ensures ConsumerOk(Published(s, event), c)
  {
    var t := Published(s, event);
    if c in s.consumers {
      var k, ch := s.consumers[c], s.demux.channels[c];
      var published := EventsOf(s.history, k.run);
      EventsOfSnoc(s.history, event, k.run);
      assert t.history[..k.start] == s.history[..k.start];
      if Delivers(s, event) {
        PublishToOwner(s.demux, event.run.value, event, s.owners[event.run.value]);
        if event.run.value == k.run {
          PushSubscribed(k, ch, published, event);
        }
      } else {
        PublishElsewhere(s, event);
        if event.run == Some(k.run) {
          MoreEvents(k, ch, published, event);
        }
      }
    }
  }

  /** If the event is delivered, it is to the one consumer that has claimed its run. */
  ghost predicate DeliversToOwner(s: System, event: Event) {
    Delivers(s, event) ==>
      && RunOk(s, event.run.value)
      && s.owners[event.run.value] in s.demux.channels
  }

  /** What is kept for a run stays within the capacity, and only its own events change it. */
  lemma PublishKeepsPending(d: Demux, event: Event, r: RunId)
    requires |Pending(d, r)| <= d.capacity
    ensures |Pending(PublishRun(d, event), r)| <= d.capacity
    ensures event.run != Some(r) ==> Pending(PublishRun(d, event), r) == Pending(d, r)
  {
    if event.run != Some(r) {
      PublishOther(d, event, r);
    }
  }

  lemma DeliveryKeepsRun(s: System, event: Event, r: RunId)
    requires RunOk(s, r) && Delivers(s, event) && DeliversToOwner(s, event)
    ensures RunOk(Published(s, event), r)
  {
    EventsOfSnoc(s.history, event, r);
    PublishToOwner(s.demux, event.run.value, event, s.owners[event.run.value]);
  }

  lemma PublishKeepsRun(s: System, event: Event, r: RunId)
    requires RunOk(s, r) && DeliversToOwner(s, event)
    ensures RunOk(Published(s, event), r)
  {
    if Delivers(s, event) {
      DeliveryKeepsRun(s, event, r);
    } else {
      EventsOfSnoc(s.history, event, r);
      PublishKeepsPending(s.demux, event, r);
      PublishElsewhere(s, event);
    }
  }

  /** Publishing does not make a run fresh for a request. */
  lemma PublishKeepsFreshness(s: System, t: System, event: Event, q: RequestId, r: RunId)
    requires t.history == s.history + [event] && t.requests == s.requests && t.owners == s.owners
    requires RequestOk(s, q) && FreshRun(t, q, r)
    ensures FreshRun(s, q, r)
  {
    assert t.history[..s.requests[q]] == s.history[..s.requests[q]];
  }

  /** An event of another run leaves what is kept for this one. */
  lemma PublishOther(d: Demux, event: Event, r: RunId)
    requires event.run != Some(r)
    ensures Pending(PublishRun(d, event), r) == Pending(d, r)
    ensures r in d.pendingFailures ==> r in PublishRun(d, event).pendingFailures
  {
    if event.run.Some? && event.run.value !in d.ignoredRuns && event.run.value !in d.runSubscribers && d.pendingRequests > 0 {
      KeepOther(d, event.run.value, event, r);
    }
  }

  lemma KeepOther(d: Demux, run: RunId, event: Event, r: RunId)
    requires r != run
    ensures Pending(KeepPending(d, run, event), r) == Pending(d, r)
    ensures r in d.pendingFailures ==> r in KeepPending(d, run, event).pendingFailures
  {
  }

  /** An event of a run nobody has claimed is appended to what is kept, or overflows it. */
  lemma PublishUnclaimed(d: Demux, event: Event, r: RunId)
    requires r !in d.ignoredRuns && r !in d.runSubscribers && d.pendingRequests > 0
    requires event.run == Some(r)
    ensures r in PublishRun(d, event).pendingFailures || Pending(PublishRun(d, event), r) == Pending(d, r) + [event]
    ensures r in d.pendingFailures ==> r in PublishRun(d, event).pendingFailures
  {
  }

  lemma PublishBuffers(d: Demux, event: Event, r: RunId, published: seq<Event>)
    requires r !in d.ignoredRuns && r !in d.runSubscribers && d.pendingRequests > 0
    requires r in d.pendingFailures || Pending(d, r) == published
    ensures r in PublishRun(d, event).pendingFailures
      || Pending(PublishRun(d, event), r) == published + (if event.run == Some(r) then [event] else [])
  {
    if event.run == Some(r) {
      PublishUnclaimed(d, event, r);
    } else {
      PublishOther(d, event, r);
    }
  }

  lemma PublishKeepsBuffer(s: System, t: System, event: Event, q: RequestId, r: RunId)
    requires s.demux.pendingRequests == |s.requests| && RequestOk(s, q) && RunOk(s, r) && BufferOk(s, q, r)
    requires t == s.(demux := PublishRun(s.demux, event), history := s.history + [event]) && s.demux.Live() == t.demux.Live()
    ensures BufferOk(t, q, r)
  {
    if FreshRun(t, q, r) && t.demux.Live() {
      PublishKeepsFreshness(s, t, event, q, r);
      NoRequests(s, q);
      PublishBuffers(s.demux, event, r, EventsOf(s.history, r));
      EventsOfSnoc(s.history, event, r);
    }
  }

  lemma InvDelivers(s: System, event: Event)
    requires Inv(s)
    ensures DeliversToOwner(s, event)
  {
    if Delivers(s, event) {
      assert RunOk(s, event.run.value);
      assert ConsumerOk(s, s.owners[event.run.value]);
    }
  }

  lemma PublishRunKeeps(s: System, event: Event)
    requires Inv(s)
    ensures Inv(Published(s, event))
  {
    var t := Published(s, event);
    InvDelivers(s, event);
    forall q ensures RequestOk(t, q) {
      assert RequestOk(s, q);
    }
    forall c ensures ConsumerOk(t, c) {
      assert ConsumerOk(s, c);
      assert c in s.consumers ==> RunOk(s, s.consumers[c].run);
      PublishKeepsConsumer(s, event, c);
    }
    forall r ensures RunOk(t, r) {
      assert RunOk(s, r);
      PublishKeepsRun(s, event, r);
    }
    forall q, r ensures BufferOk(t, q, r) {
      PublishKeepsBuffers(s, event, q, r);
    }
  }

  lemma PublishKeepsBuffers(s: System, event: Event, q: RequestId, r: RunId)
    requires Inv(s)
    ensures BufferOk(Published(s, event), q, r)
  {
    assert RequestOk(s, q) && RunOk(s, r) && BufferOk(s, q, r);
    PublishKeepsBuffer(s, Published(s, event), event, q, r);
  }

  lemma PublishKeeps(s: System, event: Event)
    requires Inv(s) && Enabled(s, PublishEvent(event))
    ensures Inv(Apply(s, PublishEvent(event)))
  {
    var heard := s.(demux := Broadcast(s.demux, event));
    ListenersApart(s, heard);
    PublishRunKeeps(heard, event);
  }

  // ----- The ends of the stream -----

  lemma SubscribedIsListed(s: System, c: ChannelId)
    requires Inv(s) && c in s.consumers && Subscribed(s.demux, s.consumers[c].run, c)
    ensures c in AllSubscribed(s.demux)
  {
  }

  ghost predicate EndsStream(s: System, after: Demux) {
    after == EndStream(s.demux) || after == FailStream(s.demux)
    || (s.demux.closed && after == CompleteSubscribers(s.demux))
  }

  lemma CloseBeginsKeeps(s: System)
    requires Inv(s)
    ensures Inv(s.(demux := BeginClose(s.demux)))
  {
    var t := s.(demux := BeginClose(s.demux));
    forall q ensures RequestOk(t, q) {
      assert RequestOk(s, q);
    }
    forall c ensures ConsumerOk(t, c) {
      assert ConsumerOk(s, c);
    }
    forall r ensures RunOk(t, r) {
      assert RunOk(s, r);
    }
  }

  /** However the stream ends, open channels are completed or failed and nobody stays subscribed. */
  lemma EndingKeeps(s: System, after: Demux)
    requires Inv(s) && EndsStream(s, after)
    ensures Inv(s.(demux := after))
  {
    var t := s.(demux := after);
    forall q ensures RequestOk(t, q) {
      assert RequestOk(s, q);
    }
    forall c ensures ConsumerOk(t, c) {
      EndingKeepsConsumer(s, after, c);
    }
    forall r ensures RunOk(t, r) {
      assert RunOk(s, r);
    }
    forall q, r ensures BufferOk(t, q, r) {
      assert BufferOk(s, q, r);
    }
  }

  lemma EndingKeepsConsumer(s: System, after: Demux, c: ChannelId)
    requires Inv(s) && EndsStream(s, after)
    ensures ConsumerOk(s.(demux := after), c)
  {
    assert ConsumerOk(s, c);
    if c in s.consumers {
      var k, ch := s.consumers[c], s.demux.channels[c];
      var published, subscribed := EventsOf(s.history, k.run), Subscribed(s.demux, k.run, c);
      if subscribed {
        SubscribedIsListed(s, c);
      }
      CompleteInOrder(k, ch, published, subscribed);
      FailInOrder(k, ch, published, subscribed);
    }
  }

  // ----- Consumer steps -----

  lemma CallNextKeeps(s: System, id: ChannelId)
    requires Inv(s) && Enabled(s, CallNext(id))
    ensures Inv(Apply(s, CallNext(id)))
  {
    var t := Apply(s, CallNext(id));
    forall q ensures RequestOk(t, q) {
      assert RequestOk(s, q);
    }
    forall c ensures ConsumerOk(t, c) {
      assert ConsumerOk(s, c);
      if c == id {
        var k := s.consumers[id];
        NextInOrder(k, s.demux.channels[id], EventsOf(s.history, k.run), Subscribed(s.demux, k.run, id));
      }
    }
    forall r ensures RunOk(t, r) {
      assert RunOk(s, r);
    }
    forall q, r ensures BufferOk(t, q, r) {
      assert BufferOk(s, q, r);
    }
  }

  /** A consumer that stops: its channel is completed and its run loses its only subscriber. */
  ghost function Stopped(s: System, id: ChannelId, k: Consumer, channel: Channel, terminalSeen: bool): System
    requires id in s.demux.channels
  {
    s.(demux := UnsubscribeRun(s.demux.(channels := s.demux.channels[id := channel]), k.run, id, terminalSeen),
       consumers := s.consumers[id := k])
  }

  lemma StoppedKeepsConsumer(s: System, id: ChannelId, k: Consumer, channel: Channel, terminalSeen: bool, c: ChannelId)
    requires id in s.consumers && k.run == s.consumers[id].run && k.start == s.consumers[id].start
    requires ConsumerOk(s, id) && ConsumerOk(s, c) && RunOk(s, k.run)
    requires InOrder(k, Complete(channel), EventsOf(s.history, k.run), false)
    ensures ConsumerOk(Stopped(s, id, k, channel, terminalSeen), c)
  {
    LeavingKeepsOthers(s.demux.(channels := s.demux.channels[id := channel]), k.run, id, terminalSeen);
  }

  /** Leaving a run completes one channel and takes only this subscriber away. */
  lemma LeavingKeepsOthers(d: Demux, run: RunId, id: ChannelId, terminalSeen: bool)
    requires id in d.channels
    ensures var t := UnsubscribeRun(d, run, id, terminalSeen);
      && t.channels == d.channels[id := Complete(d.channels[id])]
      && (forall r, c :: Subscribed(t, r, c) <==> Subscribed(d, r, c) && !(r == run && c == id))
  {
    var t := UnsubscribeRun(d, run, id, terminalSeen);
    forall r, c ensures Subscribed(t, r, c) <==> Subscribed(d, r, c) && !(r == run && c == id) {
      if Subscribed(d, run, c) && c != id {
        assert c in d.runSubscribers[run] - {id};
      }
    }
  }

  lemma StoppedKeepsRun(s: System, id: ChannelId, k: Consumer, channel: Channel, terminalSeen: bool, r: RunId)
    requires Inv(s) && id in s.consumers && k.run == s.consumers[id].run && k.start == s.consumers[id].start
    ensures RunOk(Stopped(s, id, k, channel, terminalSeen), r)
  {
    assert ConsumerOk(s, id) && RunOk(s, r) && RunOk(s, k.run);
  }

  lemma StoppedKeeps(s: System, id: ChannelId, k: Consumer, channel: Channel, terminalSeen: bool)
    requires Inv(s) && id in s.consumers && k.run == s.consumers[id].run && k.start == s.consumers[id].start
    requires InOrder(k, Complete(channel), EventsOf(s.history, k.run), false)
    ensures Inv(Stopped(s, id, k, channel, terminalSeen))
  {
    var t := Stopped(s, id, k, channel, terminalSeen);
    assert ConsumerOk(s, id);
    forall q ensures RequestOk(t, q) {
      assert RequestOk(s, q);
    }
    forall c ensures ConsumerOk(t, c) {
      assert ConsumerOk(s, c) && RunOk(s, k.run);
      StoppedKeepsConsumer(s, id, k, channel, terminalSeen, c);
    }
    forall r ensures RunOk(t, r) {
      StoppedKeepsRun(s, id, k, channel, terminalSeen, r);
    }
    forall q, r ensures BufferOk(t, q, r) {
      assert BufferOk(s, q, r);
    }
  }

  lemma LeaveKeeps(s: System, id: ChannelId)
    requires Inv(s) && Enabled(s, Leave(id))
    ensures Inv(Apply(s, Leave(id)))
  {
    assert ConsumerOk(s, id);
    var k, c := s.consumers[id], s.demux.channels[id];
    var after := k.(phase := Left);
    var subscribed := Subscribed(s.demux, k.run, id);
    assert Flow(after, c) == Flow(k, c);
    CompleteInOrder(after, c, EventsOf(s.history, k.run), subscribed);
    assert s.demux.channels[id := c] == s.demux.channels;
    StoppedKeeps(s, id, after, c, false);
  }

  lemma ResumeKeeps(s: System, id: ChannelId)
    requires Inv(s) && Enabled(s, Resume(id))
    ensures Inv(Apply(s, Resume(id)))
  {
    assert ConsumerOk(s, id);
    var k, c := s.consumers[id], s.demux.channels[id];
    var published, subscribed := EventsOf(s.history, k.run), Subscribed(s.demux, k.run, id);
    match c.inbox[0]
    case Value(event) =>
      TakeEvent(k, c, published, subscribed, event);
      if event.terminal {
        StoppedKeeps(s, id, k.(seen := k.seen + [event], phase := Finished), Taken(c), true);
      } else {
        ReadKeeps(s, id, k.(seen := k.seen + [event], phase := Idle));
      }
    case _ =>
      TakeEnd(k, c, published, subscribed);
      StoppedKeeps(s, id, k.(phase := AfterEnd(c.inbox[0])), Taken(c), false);
  }

  lemma ReadKeeps(s: System, id: ChannelId, k: Consumer)
    requires Inv(s) && Enabled(s, Resume(id)) && k.run == s.consumers[id].run && k.start == s.consumers[id].start
    requires InOrder(k, Taken(s.demux.channels[id]), EventsOf(s.history, k.run), Subscribed(s.demux, k.run, id))
    ensures Inv(s.(demux := s.demux.(channels := s.demux.channels[id := Taken(s.demux.channels[id])]),
                   consumers := s.consumers[id := k]))
  {
    var t := s.(demux := s.demux.(channels := s.demux.channels[id := Taken(s.demux.channels[id])]),
                consumers := s.consumers[id := k]);
    forall q ensures RequestOk(t, q) {
      assert RequestOk(s, q);
    }
    forall c ensures ConsumerOk(t, c) {
      assert ConsumerOk(s, c);
    }
    forall r ensures RunOk(t, r) {
      assert RunOk(s, r);
    }
    forall q, r ensures BufferOk(t, q, r) {
      assert BufferOk(s, q, r);
    }
  }

  lemma StepKeeps(s: System, step: Step)
    requires Inv(s) && Enabled(s, step)
    ensures Inv(Apply(s, step))
  {
    match step
    case Start(q) => StartKeeps(s, q);
    case RequestFails(q) => EndRequestKeeps(s, q);
    case Claim(q, run, id) => ClaimKeeps(s, q, run, id);
    case PublishEvent(event) => PublishKeeps(s, event);
    case StreamEnds => EndingKeeps(s, EndStream(s.demux));
    case StreamFails => EndingKeeps(s, FailStream(s.demux));
    case CloseBegins => CloseBeginsKeeps(s);
    case CloseEnds => EndingKeeps(s, CompleteSubscribers(s.demux));
    case CallNext(id) => CallNextKeeps(s, id);
    case Resume(id) => ResumeKeeps(s, id);
    case Leave(id) => LeaveKeeps(s, id);
    case _ => ListenersApart(s, Apply(s, step));
  }

  lemma {:induction false} RunKeeps(s: System, steps: seq<Step>)
    requires Inv(s) && Possible(s, steps)
    ensures Inv(RunSteps(s, steps))
    decreases |steps|
  {
    if steps != [] {
      StepKeeps(s, steps[0]);
      RunKeeps(Apply(s, steps[0]), steps[1..]);
    }
  }

  // ---------- What a consumer can rely on ----------

  lemma {:induction false} EventsOfSplit(a: seq<Event>, b: seq<Event>, run: RunId)
    ensures EventsOf(a + b, run) == EventsOf(a, run) + EventsOf(b, run)
  {
    if b == [] {
      assert a + b == a;
    } else {
      var n := |b| - 1;
      assert (a + b)[..|a + b| - 1] == a + b[..n];
      EventsOfSplit(a, b[..n], run);
    }
  }

  /** The first terminal event of a run, if any, is the last event a consumer is given. */
  ghost predicate EndsAtTerminal(seen: seq<Event>, published: seq<Event>) {
    && seen != [] && seen <= published
    && seen[|seen| - 1].terminal
    && forall i :: 0 <= i < |seen| - 1 ==> !published[i].terminal
  }

  /**
   In every interleaving, what a consumer has seen is an initial part, without gap, repetition or
   reordering, of the events its run published since the request began; a stream that ends without
   error ends exactly at the first terminal event.
  */
  lemma ConsumersSeeTheirRun(capacity: nat, steps: seq<Step>, id: ChannelId)
    requires Possible(Initial(capacity), steps)
    requires id in RunSteps(Initial(capacity), steps).consumers
    ensures var s := RunSteps(Initial(capacity), steps);
      var k := s.consumers[id];
      && k.start <= |s.history|
      && k.seen <= EventsOf(s.history[k.start..], k.run)
      && (k.phase == Finished ==> EndsAtTerminal(k.seen, EventsOf(s.history[k.start..], k.run)))
      && (k.phase != Finished ==> !HasTerminal(k.seen))
  {
    var s := RunSteps(Initial(capacity), steps);
    RunKeeps(Initial(capacity), steps);
    assert ConsumerOk(s, id);
    var k := s.consumers[id];
    NoEarlierEvents(s.history, k.start, k.run);
    SeenIsPrefix(k, s.demux.channels[id], EventsOf(s.history, k.run), Subscribed(s.demux, k.run, id));
    SeenEnds(k);
  }

  lemma NoEarlierEvents(history: seq<Event>, start: nat, run: RunId)
    requires start <= |history| && EventsOf(history[..start], run) == []
    ensures EventsOf(history, run) == EventsOf(history[start..], run)
  {
    assert history == history[..start] + history[start..];
    EventsOfSplit(history[..start], history[start..], run);
  }

  lemma SeenEnds(k: Consumer)
    requires SeenOk(k)
    ensures k.phase != Finished ==> !HasTerminal(k.seen)
  {
  }

  lemma SeenIsPrefix(k: Consumer, c: Channel, published: seq<Event>, subscribed: bool)
    requires InOrder(k, c, published, subscribed)
    ensures k.seen <= published && SeenOk(k)
    ensures k.phase == Finished ==> EndsAtTerminal(k.seen, published)
  {
    assert Flow(k, c) == k.seen + (Delivered(c.inbox) + c.values);
    if k.phase == Finished {
      var early := k.seen[..|k.seen| - 1];
      forall i | 0 <= i < |k.seen| - 1 ensures !published[i].terminal {
        assert published[i] == k.seen[i] == early[i];
      }
    }
  }

  /** While a consumer is subscribed, nothing published is missing: seen, handed over, or waiting. */
  lemma SubscribersMissNothing(capacity: nat, steps: seq<Step>, id: ChannelId)
    requires Possible(Initial(capacity), steps)
    requires id in RunSteps(Initial(capacity), steps).consumers
    requires var s := RunSteps(Initial(capacity), steps); Subscribed(s.demux, s.consumers[id].run, id)
    ensures var s := RunSteps(Initial(capacity), steps);
      id in s.demux.channels && Flow(s.consumers[id], s.demux.channels[id]) == EventsOf(s.history, s.consumers[id].run)
  {
    RunKeeps(Initial(capacity), steps);
    assert ConsumerOk(RunSteps(Initial(capacity), steps), id);
  }
}
