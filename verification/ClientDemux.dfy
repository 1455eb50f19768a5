/**
 The client's run demultiplexer: which channel receives a run's events, what is kept for a run whose
 request has not been answered yet, and which runs are ignored.
*/
module ClientDemux {
  import opened Wrappers
  import opened EventChannel

  type ChannelId = nat

  /** Those who follow all events: the open subscriptions, and everyone's channel. */
  datatype Listening = Listening(subscribers: set<ChannelId>, channels: map<ChannelId, Channel>)

  datatype Demux = Demux(
    capacity: nat,
    pendingRequests: int,
    runSubscribers: map<RunId, set<ChannelId>>,
    pendingEvents: map<RunId, seq<Event>>,
    pendingFailures: set<RunId>,
    ignoredRuns: set<RunId>,
    channels: map<ChannelId, Channel>,
    listening: Listening,
    streamEnded: bool,
    streamFailed: bool,
    closed: bool)
  {
    /** Nothing has ended the event stream for new subscribers. */
    predicate Live() {
      !streamEnded && !streamFailed && !closed
    }
  }

  function NewDemux(capacity: nat): Demux {
    Demux(capacity, 0, map[], map[], {}, {}, map[], Listening({}, map[]), false, false, false)
  }

  /** Pushes an event into each of the given channels. */
  function PushTo(channels: map<ChannelId, Channel>, ids: set<ChannelId>, event: Event): (r: map<ChannelId, Channel>)
    ensures r.Keys == channels.Keys
    ensures forall c :: c in channels ==> r[c] == if c in ids then Push(channels[c], event) else channels[c]
  {
    map c | c in channels :: if c in ids then Push(channels[c], event) else channels[c]
  }

  function CompleteIn(channels: map<ChannelId, Channel>, ids: set<ChannelId>): (r: map<ChannelId, Channel>)
    ensures r.Keys == channels.Keys
    ensures forall c :: c in channels ==> r[c] == if c in ids then Complete(channels[c]) else channels[c]
  {
    map c | c in channels :: if c in ids then Complete(channels[c]) else channels[c]
  }

  function FailIn(channels: map<ChannelId, Channel>, ids: set<ChannelId>): (r: map<ChannelId, Channel>)
    ensures r.Keys == channels.Keys
    ensures forall c :: c in channels ==> r[c] == if c in ids then Fail(channels[c], StreamFailure) else channels[c]
  {
    map c | c in channels :: if c in ids then Fail(channels[c], StreamFailure) else channels[c]
  }

  function StillOpen(channels: map<ChannelId, Channel>, ids: set<ChannelId>): set<ChannelId> {
    set c | c in ids && c in channels && !channels[c].closed
  }

  function AllSubscribers(subscribers: map<RunId, set<ChannelId>>): set<ChannelId> {
    set r, c | r in subscribers && c in subscribers[r] :: c
  }

  function AllSubscribed(d: Demux): set<ChannelId> {
    AllSubscribers(d.runSubscribers)
  }

  /** An event goes to everyone who follows all events, and then where its run leads it. */
  function Publish(d: Demux, event: Event): Demux {
    PublishRun(Broadcast(d, event), event)
  }

  function Broadcast(d: Demux, event: Event): Demux {
    var pushed := PushTo(d.listening.channels, d.listening.subscribers, event);
    d.(listening := Listening(StillOpen(pushed, d.listening.subscribers), pushed))
  }

  function PublishRun(d: Demux, event: Event): Demux {
    if event.run.None? then d
    else
      var run := event.run.value;
      if run in d.ignoredRuns then
        (if event.terminal then d.(ignoredRuns := d.ignoredRuns - {run}) else d)
      else if run in d.runSubscribers then PublishTo(d, run, event)
      else if d.pendingRequests > 0 then KeepPending(d, run, event)
      else d
  }

  function PublishTo(d: Demux, run: RunId, event: Event): Demux
    requires run in d.runSubscribers
  {
    var pushed := PushTo(d.channels, d.runSubscribers[run], event);
    var open := StillOpen(pushed, d.runSubscribers[run]);
    if event.terminal then
      d.(channels := CompleteIn(pushed, open), runSubscribers := d.runSubscribers - {run})
    else if open == {} then
      d.(channels := pushed, runSubscribers := d.runSubscribers - {run}, ignoredRuns := d.ignoredRuns + {run})
    else
      d.(channels := pushed, runSubscribers := d.runSubscribers[run := open])
  }

  function Pending(d: Demux, run: RunId): seq<Event> {
    if run in d.pendingEvents then d.pendingEvents[run] else []
  }

  function KeepPending(d: Demux, run: RunId, event: Event): Demux {
    if |Pending(d, run)| >= d.capacity then
      d.(pendingEvents := d.pendingEvents - {run}, pendingFailures := d.pendingFailures + {run})
    else
      d.(pendingEvents := d.pendingEvents[run := Pending(d, run) + [event]])
  }

  function CreateChannel(d: Demux): Channel {
    var c := NewChannel(d.capacity);
    if d.streamFailed then Fail(c, StreamFailure) else if d.streamEnded || d.closed then Complete(c) else c
  }

  function PushAll(c: Channel, events: seq<Event>): Channel {
    if events == [] then c else Push(PushAll(c, events[..|events| - 1]), events[|events| - 1])
  }

  function HasTerminal(events: seq<Event>): (r: bool)
    ensures r <==> exists i :: 0 <= i < |events| && events[i].terminal
  {
    if events == [] then false else HasTerminal(events[..|events| - 1]) || events[|events| - 1].terminal
  }

  /** The channel a new subscriber starts with: everything kept for the run has been pushed into it. */
  function Filled(d: Demux, run: RunId): Channel {
    var c := PushAll(CreateChannel(d), Pending(d, run));
    if run in d.pendingFailures then Fail(c, Overflow)
    else if HasTerminal(Pending(d, run)) then Complete(c)
    else c
  }

  function SubscribersOf(d: Demux, run: RunId): set<ChannelId> {
    if run in d.runSubscribers then d.runSubscribers[run] else {}
  }

  function SubscribeRun(d: Demux, run: RunId, id: ChannelId): Demux {
    var c := Filled(d, run);
    var next := d.(
      channels := d.channels[id := c],
      pendingEvents := d.pendingEvents - {run},
      pendingFailures := d.pendingFailures - {run},
      ignoredRuns := d.ignoredRuns - {run});
    if run in d.pendingFailures || HasTerminal(Pending(d, run)) || c.closed then next
    else next.(runSubscribers := d.runSubscribers[run := SubscribersOf(d, run) + {id}])
  }

  function WithoutSubscriber(subscribers: map<RunId, set<ChannelId>>, run: RunId, id: ChannelId): map<RunId, set<ChannelId>> {
    if run !in subscribers then subscribers
    else if subscribers[run] - {id} == {} then subscribers - {run}
    else subscribers[run := subscribers[run] - {id}]
  }

  function UnsubscribeRun(d: Demux, run: RunId, id: ChannelId, terminalSeen: bool): Demux
    requires id in d.channels
  {
    var next := d.(
      channels := d.channels[id := Complete(d.channels[id])],
      runSubscribers := WithoutSubscriber(d.runSubscribers, run, id));
    if !terminalSeen && d.Live() then next.(ignoredRuns := d.ignoredRuns + {run}) else next
  }

  function BeginRequest(d: Demux): Demux {
    d.(pendingRequests := d.pendingRequests + 1)
  }

  /** The request is over; with the last one, everything kept for unclaimed runs is dropped. */
  function EndRequest(d: Demux): Demux {
    var next := d.(pendingRequests := d.pendingRequests - 1);
    if next.pendingRequests == 0 then next.(pendingEvents := map[], pendingFailures := {}) else next
  }

  function SubscribeAll(d: Demux, id: ChannelId): Demux {
    d.(listening := Listening(d.listening.subscribers + {id}, d.listening.channels[id := CreateChannel(d)]))
  }

  function UnsubscribeAll(d: Demux, id: ChannelId): Demux
    requires id in d.listening.channels
  {
    d.(listening := Listening(d.listening.subscribers - {id},
                              d.listening.channels[id := Complete(d.listening.channels[id])]))
  }

  function Cleared(d: Demux): Demux {
    d.(listening := d.listening.(subscribers := {}), runSubscribers := map[], pendingEvents := map[], pendingFailures := {}, ignoredRuns := {})
  }

  function CompleteSubscribers(d: Demux): Demux {
    Cleared(d.(channels := CompleteIn(d.channels, AllSubscribed(d)),
               listening := d.listening.(channels := CompleteIn(d.listening.channels, d.listening.subscribers))))
  }

  function FailSubscribers(d: Demux): Demux {
    Cleared(d.(channels := FailIn(d.channels, AllSubscribed(d)),
               listening := d.listening.(channels := FailIn(d.listening.channels, d.listening.subscribers))))
  }

  function EndStream(d: Demux): Demux {
    CompleteSubscribers(d.(streamEnded := true))
  }

  function FailStream(d: Demux): Demux {
    FailSubscribers(d.(streamFailed := true))
  }

  /** Closing marks the client first; its subscribers are completed once the connection is down. */
  function BeginClose(d: Demux): Demux {
    d.(closed := true)
  }

  // ---------- Channels as objects ----------

  /** Different ids have different channel objects. */
  ghost predicate Separate(channels: map<ChannelId, AsyncEventChannel>) {
    forall a, b :: a in channels && b in channels && a != b ==> channels[a] != channels[b]
  }

  ghost predicate Apart(channels: map<ChannelId, AsyncEventChannel>, others: map<ChannelId, AsyncEventChannel>) {
    forall b :: b in others ==> others[b] !in channels.Values
  }

  /** Each channel object is in the given state. */
  ghost predicate Mirrors(channels: map<ChannelId, AsyncEventChannel>, states: map<ChannelId, Channel>)
    reads channels.Values
  {
    forall c :: c in channels ==> c in states && channels[c].State() == states[c]
  }

  lemma PushToOneMore(before: map<ChannelId, Channel>, done: set<ChannelId>, id: ChannelId, event: Event)
    requires id in before && id !in done
    ensures PushTo(before, done + {id}, event)
         == PushTo(before, done, event)[id := Push(PushTo(before, done, event)[id], event)]
  {
  }

  method PushOne(channels: map<ChannelId, AsyncEventChannel>, id: ChannelId, event: Event, ghost states: map<ChannelId, Channel>)
    requires Separate(channels) && Mirrors(channels, states) && id in channels
    modifies channels[id]
    ensures Mirrors(channels, states[id := Push(states[id], event)])
  {
    channels[id].PushEvent(event);
  }

  /** Pushes into each subscriber in turn and drops the subscribers that are closed now. */
  method PushEach(channels: map<ChannelId, AsyncEventChannel>, subscribers: set<ChannelId>, event: Event,
                  ghost states: map<ChannelId, Channel>)
    returns (open: set<ChannelId>)
    requires Separate(channels) && Mirrors(channels, states) && subscribers <= channels.Keys
    modifies channels.Values
    ensures Mirrors(channels, PushTo(states, subscribers, event))
    ensures open == StillOpen(PushTo(states, subscribers, event), subscribers)
  {
    ghost var done := {};
    open := subscribers;
    var todo := subscribers;
    while todo != {}
      invariant todo !! done && todo + done == subscribers
      invariant Mirrors(channels, PushTo(states, done, event))
      invariant open == todo + StillOpen(PushTo(states, done, event), done)
      decreases todo
    {
      var id :| id in todo;
      PushToOneMore(states, done, id, event);
      PushOne(channels, id, event, PushTo(states, done, event));
      todo, done := todo - {id}, done + {id};
      if channels[id].closed {
        open := open - {id};
      }
    }
    assert done == subscribers;
  }

  method CompleteEach(channels: map<ChannelId, AsyncEventChannel>, ids: set<ChannelId>, ghost states: map<ChannelId, Channel>)
    requires Separate(channels) && Mirrors(channels, states) && ids <= channels.Keys
    modifies channels.Values
    ensures Mirrors(channels, CompleteIn(states, ids))
  {
    ghost var done := {};
    var todo := ids;
    while todo != {}
      invariant todo !! done && todo + done == ids
      invariant Mirrors(channels, CompleteIn(states, done))
      decreases todo
    {
      var id :| id in todo;
      channels[id].CompleteAll();
      todo, done := todo - {id}, done + {id};
    }
    assert done == ids;
  }

  method FailEach(channels: map<ChannelId, AsyncEventChannel>, ids: set<ChannelId>, ghost states: map<ChannelId, Channel>)
    requires Separate(channels) && Mirrors(channels, states) && ids <= channels.Keys
    modifies channels.Values
    ensures Mirrors(channels, FailIn(states, ids))
  {
    ghost var done := {};
    var todo := ids;
    while todo != {}
      invariant todo !! done && todo + done == ids
      invariant Mirrors(channels, FailIn(states, done))
      decreases todo
    {
      var id :| id in todo;
      channels[id].FailWith(StreamFailure);
      todo, done := todo - {id}, done + {id};
    }
    assert done == ids;
  }

  /**
   The demultiplexer as the client keeps it: maps and sets replaced, and channel objects changed in place.
   Each method is proved against the function of `view` that it performs.
  */
  class RunDemultiplexer {
    const capacity: nat
    var pendingRequests: int
    var runSubscribers: map<RunId, set<ChannelId>>
    var pendingEvents: map<RunId, seq<Event>>
    var pendingFailures: set<RunId>
    var ignoredRuns: set<RunId>
    var channels: map<ChannelId, AsyncEventChannel>
    var eventSubscribers: set<ChannelId>
    var listening: map<ChannelId, AsyncEventChannel>
    var streamEnded: bool
    var streamFailed: bool
    var closed: bool
    ghost var view: Demux

    constructor (capacity: nat)
      ensures Valid() && view == NewDemux(capacity)
    {
      this.capacity := capacity;
      pendingRequests := 0;
      runSubscribers, pendingEvents, pendingFailures, ignoredRuns := map[], map[], {}, {};
      channels, eventSubscribers, listening := map[], {}, map[];
      streamEnded, streamFailed, closed := false, false, false;
      view := NewDemux(capacity);
    }

    /** The fields and the channel objects are as `view` says, and only known channels are subscribed. */
    ghost predicate Valid()
      reads this, channels.Values, listening.Values
    {
      && FieldsMatch()
      && Mirrors(channels, view.channels) && Mirrors(listening, view.listening.channels)
      && Separate(channels) && Separate(listening) && Apart(channels, listening)
    }

    ghost predicate FieldsMatch()
      reads this
    {
      && view.capacity == capacity && view.pendingRequests == pendingRequests
      && view.runSubscribers == runSubscribers && view.pendingEvents == pendingEvents
      && view.pendingFailures == pendingFailures && view.ignoredRuns == ignoredRuns
      && view.listening.subscribers == eventSubscribers
      && view.streamEnded == streamEnded && view.streamFailed == streamFailed && view.closed == closed
      && (forall r :: r in runSubscribers ==> runSubscribers[r] <= channels.Keys)
      && eventSubscribers <= listening.Keys
    }

    method PublishEvent(event: Event)
      requires Valid()
      modifies this, channels.Values, listening.Values
      ensures Valid() && channels == old(channels) && listening == old(listening)
      ensures view == Publish(old(view), event)
    {
      BroadcastEvent(event);
      if event.run.None? {
        return;
      }
      var run := event.run.value;
      if run !in ignoredRuns && run in runSubscribers {
        PublishToSubscribers(run, event);
      } else {
        IgnoreOrKeep(run, event);
      }
    }

    method BroadcastEvent(event: Event)
      requires Valid()
      modifies this`eventSubscribers, this`view, listening.Values
      ensures Valid() && view == Broadcast(old(view), event)
    {
      eventSubscribers := PushEach(listening, eventSubscribers, event, view.listening.channels);
      view := Broadcast(view, event);
    }

    /** An event that no subscriber takes: the last one of an ignored run, or one to keep for a pending request. */
    method IgnoreOrKeep(run: RunId, event: Event)
      requires Valid() && event.run == Some(run) && (run in ignoredRuns || run !in runSubscribers)
      modifies this`ignoredRuns, this`pendingEvents, this`pendingFailures, this`view
      ensures Valid() && view == PublishRun(old(view), event)
    {
      if run in ignoredRuns {
        if event.terminal {
          ignoredRuns := ignoredRuns - {run};
        }
      } else if pendingRequests > 0 {
        var pending := if run in pendingEvents then pendingEvents[run] else [];
        if |pending| >= capacity {
          pendingEvents := pendingEvents - {run};
          pendingFailures := pendingFailures + {run};
        } else {
          pendingEvents := pendingEvents[run := pending + [event]];
        }
      }
      view := PublishRun(view, event);
    }

    method PublishToSubscribers(run: RunId, event: Event)
      requires Valid() && run in runSubscribers
      modifies this`runSubscribers, this`ignoredRuns, this`view, channels.Values
      ensures Valid() && view == PublishTo(old(view), run, event)
    {
      var open := PushToRun(run, event);
      if event.terminal {
        CompleteChannels(open);
      }
      KeepOpen(run, open, event);
    }

    method PushToRun(run: RunId, event: Event) returns (open: set<ChannelId>)
      requires Valid() && run in runSubscribers
      modifies this`view, channels.Values
      ensures Valid() && view == old(view).(channels := PushTo(old(view).channels, runSubscribers[run], event))
      ensures open == StillOpen(view.channels, runSubscribers[run])
    {
      open := PushEach(channels, runSubscribers[run], event, view.channels);
      view := view.(channels := PushTo(view.channels, runSubscribers[run], event));
    }

    method CompleteChannels(ids: set<ChannelId>)
      requires Valid() && ids <= channels.Keys
      modifies this`view, channels.Values
      ensures Valid() && view == old(view).(channels := CompleteIn(old(view).channels, ids))
    {
      CompleteEach(channels, ids, view.channels);
      view := view.(channels := CompleteIn(view.channels, ids));
    }

    /** The subscribers of a run after an event, given those whose channels are still open. */
    method KeepOpen(run: RunId, open: set<ChannelId>, event: Event)
      requires Valid() && open <= channels.Keys
      modifies this`runSubscribers, this`ignoredRuns, this`view
      ensures Valid() && view == old(view).(
        runSubscribers := if event.terminal || open == {} then old(view).runSubscribers - {run}
                          else old(view).runSubscribers[run := open],
        ignoredRuns := if !event.terminal && open == {} then old(view).ignoredRuns + {run} else old(view).ignoredRuns)
    {
      if event.terminal {
        runSubscribers := runSubscribers - {run};
      } else if open == {} {
        runSubscribers := runSubscribers - {run};
        ignoredRuns := ignoredRuns + {run};
      } else {
        runSubscribers := runSubscribers[run := open];
      }
      view := view.(runSubscribers := runSubscribers, ignoredRuns := ignoredRuns);
    }

    /** A new channel, which is closed from the start if the stream of events is over. */
    method CreateEventChannel() returns (channel: AsyncEventChannel)
      requires FieldsMatch()
      ensures fresh(channel) && channel.State() == CreateChannel(view)
    {
      channel := new AsyncEventChannel(capacity);
      if streamFailed {
        channel.FailWith(StreamFailure);
      } else if streamEnded || closed {
        channel.CompleteAll();
      }
    }

    method FillChannel(channel: AsyncEventChannel, pending: seq<Event>) returns (terminalSeen: bool)
      modifies channel
      ensures channel.State() == PushAll(old(channel.State()), pending)
      ensures terminalSeen == HasTerminal(pending)
    {
      terminalSeen := false;
      for k := 0 to |pending|
        invariant channel.State() == PushAll(old(channel.State()), pending[..k])
        invariant terminalSeen == HasTerminal(pending[..k])
      {
        assert pending[..k + 1][..k] == pending[..k];
        channel.PushEvent(pending[k]);
        if pending[k].terminal {
          terminalSeen := true;
        }
      }
      assert pending[..|pending|] == pending;
    }

    /** A new channel with everything that was kept for the run, and whether the run is over already. */
    method ClaimedChannel(run: RunId) returns (channel: AsyncEventChannel, over: bool)
      requires FieldsMatch()
      ensures fresh(channel) && channel.State() == Filled(view, run)
      ensures over <==> run in pendingFailures || HasTerminal(Pending(view, run))
    {
      channel := CreateEventChannel();
      var pending := if run in pendingEvents then pendingEvents[run] else [];
      over := FillChannel(channel, pending);
      if run in pendingFailures {
        channel.FailWith(Overflow);
        over := true;
      } else if over {
        channel.CompleteAll();
      }
    }

    method Subscribe(run: RunId, id: ChannelId)
      requires Valid() && id !in channels
      modifies this
      ensures Valid() && fresh(channels.Values - old(channels.Values)) && listening == old(listening)
      ensures view == SubscribeRun(old(view), run, id)
    {
      var channel, over := ClaimedChannel(run);
      var subscribed := !over && !channel.closed;
      DropKept(run);
      AddChannel(id, channel);
      if subscribed {
        AddSubscriber(run, id);
      }
    }

    method AddChannel(id: ChannelId, channel: AsyncEventChannel)
      requires Valid() && id !in channels && channel !in channels.Values && channel !in listening.Values
      modifies this`channels, this`view
      ensures Valid() && channels == old(channels)[id := channel]
      ensures view == old(view).(channels := old(view).channels[id := channel.State()])
    {
      channels := channels[id := channel];
      view := view.(channels := view.channels[id := channel.State()]);
    }

    /** Nothing is kept for a claimed run any more. */
    method DropKept(run: RunId)
      requires Valid()
      modifies this`pendingEvents, this`pendingFailures, this`ignoredRuns, this`view
      ensures Valid() && view == old(view).(
        pendingEvents := old(view).pendingEvents - {run}, pendingFailures := old(view).pendingFailures - {run},
        ignoredRuns := old(view).ignoredRuns - {run})
    {
      pendingEvents := pendingEvents - {run};
      pendingFailures := pendingFailures - {run};
      ignoredRuns := ignoredRuns - {run};
      view := view.(pendingEvents := pendingEvents, pendingFailures := pendingFailures, ignoredRuns := ignoredRuns);
    }

    method AddSubscriber(run: RunId, id: ChannelId)
      requires Valid() && id in channels
      modifies this`runSubscribers, this`view
      ensures Valid() && view == old(view).(
        runSubscribers := old(view).runSubscribers[run := SubscribersOf(old(view), run) + {id}])
    {
      var subscribers := if run in runSubscribers then runSubscribers[run] else {};
      runSubscribers := runSubscribers[run := subscribers + {id}];
      view := view.(runSubscribers := runSubscribers);
    }

    method Unsubscribe(run: RunId, id: ChannelId, terminalSeen: bool)
      requires Valid() && id in channels
      modifies this`runSubscribers, this`ignoredRuns, this`view, channels[id]
      ensures Valid() && view == UnsubscribeRun(old(view), run, id, terminalSeen)
    {
      RemoveSubscriber(run, id);
      CompleteChannel(id);
      if !terminalSeen && !streamFailed && !streamEnded && !closed {
        IgnoreRun(run);
      }
    }

    method IgnoreRun(run: RunId)
      requires Valid()
      modifies this`ignoredRuns, this`view
      ensures Valid() && view == old(view).(ignoredRuns := old(view).ignoredRuns + {run})
    {
      ignoredRuns := ignoredRuns + {run};
      view := view.(ignoredRuns := ignoredRuns);
    }

    method RemoveSubscriber(run: RunId, id: ChannelId)
      requires Valid()
      modifies this`runSubscribers, this`view
      ensures Valid() && view == old(view).(runSubscribers := WithoutSubscriber(old(view).runSubscribers, run, id))
    {
      if run in runSubscribers {
        var subscribers := runSubscribers[run] - {id};
        if subscribers == {} {
          runSubscribers := runSubscribers - {run};
        } else {
          runSubscribers := runSubscribers[run := subscribers];
        }
      }
      view := view.(runSubscribers := runSubscribers);
    }

    method CompleteChannel(id: ChannelId)
      requires Valid() && id in channels
      modifies this`view, channels[id]
      ensures Valid() && view == old(view).(channels := old(view).channels[id := Complete(old(view).channels[id])])
    {
      channels[id].CompleteAll();
      view := view.(channels := view.channels[id := Complete(view.channels[id])]);
    }

    method Listen(id: ChannelId)
      requires Valid() && id !in listening
      modifies this
      ensures Valid() && fresh(listening.Values - old(listening.Values)) && channels == old(channels)
      ensures view == SubscribeAll(old(view), id)
    {
      var channel := CreateEventChannel();
      AddListener(id, channel);
    }

    method AddListener(id: ChannelId, channel: AsyncEventChannel)
      requires Valid() && id !in listening && channel !in channels.Values && channel !in listening.Values
      modifies this`listening, this`eventSubscribers, this`view
      ensures Valid() && listening == old(listening)[id := channel]
      ensures view == old(view).(listening := Listening(old(view).listening.subscribers + {id},
                                                        old(view).listening.channels[id := channel.State()]))
    {
      listening := listening[id := channel];
      eventSubscribers := eventSubscribers + {id};
      view := view.(listening := Listening(eventSubscribers, view.listening.channels[id := channel.State()]));
    }

    method StopListening(id: ChannelId)
      requires Valid() && id in listening
      modifies this`eventSubscribers, this`view, listening[id]
      ensures Valid() && view == UnsubscribeAll(old(view), id)
    {
      eventSubscribers := eventSubscribers - {id};
      listening[id].CompleteAll();
      view := UnsubscribeAll(view, id);
    }

    method RequestStarts()
      requires Valid()
      modifies this
      ensures Valid() && channels == old(channels) && listening == old(listening)
      ensures view == BeginRequest(old(view))
    {
      pendingRequests := pendingRequests + 1;
      view := BeginRequest(view);
    }

    method RequestEnds()
      requires Valid()
      modifies this
      ensures Valid() && channels == old(channels) && listening == old(listening)
      ensures view == EndRequest(old(view))
    {
      pendingRequests := pendingRequests - 1;
      if pendingRequests == 0 {
        pendingEvents, pendingFailures := map[], {};
      }
      view := EndRequest(view);
    }

    method CompleteEventSubscribers()
      requires Valid()
      modifies this, channels.Values, listening.Values
      ensures Valid() && channels == old(channels) && listening == old(listening)
      ensures view == CompleteSubscribers(old(view))
    {
      CompleteListeners();
      CompleteChannels(AllSubscribers(runSubscribers));
      Clear();
    }

    method CompleteListeners()
      requires Valid()
      modifies this`view, listening.Values
      ensures Valid() && view == old(view).(listening := Listening(eventSubscribers, CompleteIn(old(view).listening.channels, eventSubscribers)))
    {
      CompleteEach(listening, eventSubscribers, view.listening.channels);
      view := view.(listening := Listening(eventSubscribers, CompleteIn(view.listening.channels, eventSubscribers)));
    }

    method FailEventSubscribers()
      requires Valid()
      modifies this, channels.Values, listening.Values
      ensures Valid() && channels == old(channels) && listening == old(listening)
      ensures view == FailSubscribers(old(view))
    {
      FailListeners();
      FailChannels(AllSubscribers(runSubscribers));
      Clear();
    }

    method FailListeners()
      requires Valid()
      modifies this`view, listening.Values
      ensures Valid() && view == old(view).(listening := Listening(eventSubscribers, FailIn(old(view).listening.channels, eventSubscribers)))
    {
      FailEach(listening, eventSubscribers, view.listening.channels);
      view := view.(listening := Listening(eventSubscribers, FailIn(view.listening.channels, eventSubscribers)));
    }

    method FailChannels(ids: set<ChannelId>)
      requires Valid() && ids <= channels.Keys
      modifies this`view, channels.Values
      ensures Valid() && view == old(view).(channels := FailIn(old(view).channels, ids))
    {
      FailEach(channels, ids, view.channels);
      view := view.(channels := FailIn(view.channels, ids));
    }

    method Clear()
      requires Valid()
      modifies this`eventSubscribers, this`runSubscribers, this`pendingEvents, this`pendingFailures, this`ignoredRuns, this`view
      ensures Valid() && view == Cleared(old(view))
    {
      eventSubscribers, runSubscribers := {}, map[];
      pendingEvents, pendingFailures, ignoredRuns := map[], {}, {};
      view := Cleared(view);
    }

    method StreamEnds()
      requires Valid()
      modifies this, channels.Values, listening.Values
      ensures Valid() && channels == old(channels) && listening == old(listening)
      ensures view == EndStream(old(view))
    {
      streamEnded := true;
      view := view.(streamEnded := true);
      CompleteEventSubscribers();
    }

    method StreamFails()
      requires Valid()
      modifies this, channels.Values, listening.Values
      ensures Valid() && channels == old(channels) && listening == old(listening)
      ensures view == FailStream(old(view))
    {
      streamFailed := true;
      view := view.(streamFailed := true);
      FailEventSubscribers();
    }

    method StartClosing() returns (first: bool)
      requires Valid()
      modifies this`closed, this`view
      ensures Valid() && view == BeginClose(old(view)) && first == !old(closed)
    {
      first := !closed;
      closed := true;
      view := BeginClose(view);
    }
  }
}
