/**
 The bounded channel between the event pump and one consumer.  `inbox` holds the outcomes of `next`
 calls in the order in which their promises were resolved.
*/
module EventChannel {
  import opened Wrappers

  type RunId = string

  datatype Event = Event(run: Option<RunId>, terminal: bool, body: string)

  datatype Failure = Overflow | StreamFailure

  datatype Outcome = Value(event: Event) | Rejected(failure: Failure) | Done

  datatype Channel = Channel(
    capacity: nat,
    values: seq<Event>,
    waiters: nat,
    closed: bool,
    failure: Option<Failure>,
    inbox: seq<Outcome>)

  function Repeat(outcome: Outcome, n: nat): seq<Outcome> {
    if n == 0 then [] else Repeat(outcome, n - 1) + [outcome]
  }

  function NewChannel(capacity: nat): Channel {
    Channel(capacity, [], 0, false, None, [])
  }

  function Next(c: Channel): Channel {
    if |c.values| > 0 then c.(values := c.values[1..], inbox := c.inbox + [Value(c.values[0])])
    else if c.failure.Some? then c.(inbox := c.inbox + [Rejected(c.failure.value)])
    else if c.closed then c.(inbox := c.inbox + [Done])
    else c.(waiters := c.waiters + 1)
  }

  function Push(c: Channel, event: Event): Channel {
    if c.closed then c
    else if c.waiters > 0 then c.(waiters := c.waiters - 1, inbox := c.inbox + [Value(event)])
    else if |c.values| >= c.capacity then Fail(c, Overflow)
    else c.(values := c.values + [event])
  }

  function Complete(c: Channel): Channel {
    if c.closed then c else c.(closed := true, waiters := 0, inbox := c.inbox + Repeat(Done, c.waiters))
  }

  function Fail(c: Channel, failure: Failure): Channel {
    if c.closed then c
    else c.(closed := true, failure := Some(failure), values := [], waiters := 0,
            inbox := c.inbox + Repeat(Rejected(failure), c.waiters))
  }

  class AsyncEventChannel {
    const capacity: nat
    var values: seq<Event>
    var waiters: nat
    var closed: bool
    var failure: Option<Failure>
    var inbox: seq<Outcome>

    constructor (capacity: nat)
      ensures State() == NewChannel(capacity)
    {
      this.capacity := capacity;
      values, waiters, closed, failure, inbox := [], 0, false, None, [];
    }

    function State(): Channel
      reads this
    {
      Channel(capacity, values, waiters, closed, failure, inbox)
    }

    method CallNext()
      modifies this
      ensures State() == Next(old(State()))
    {
      if |values| > 0 {
        inbox := inbox + [Value(values[0])];
        values := values[1..];
        return;
      }
      if failure.Some? {
        inbox := inbox + [Rejected(failure.value)];
        return;
      }
      if closed {
        inbox := inbox + [Done];
        return;
      }
      waiters := waiters + 1;
    }

    method PushEvent(event: Event)
      modifies this
      ensures State() == Push(old(State()), event)
    {
      if closed {
        return;
      }
      if waiters > 0 {
        waiters := waiters - 1;
        inbox := inbox + [Value(event)];
        return;
      }
      if |values| >= capacity {
        FailWith(Overflow);
        return;
      }
      values := values + [event];
    }

    method CompleteAll()
      modifies this
      ensures State() == Complete(old(State()))
    {
      if closed {
        return;
      }
      closed := true;
      ResolveWaiters(Done);
    }

    method FailWith(error: Failure)
      modifies this
      ensures State() == Fail(old(State()), error)
    {
      if closed {
        return;
      }
      closed := true;
      failure := Some(error);
      values := [];
      ResolveWaiters(Rejected(error));
    }

    /** Settles every outstanding `next` call with the same outcome, oldest first. */
    method ResolveWaiters(outcome: Outcome)
      modifies this`waiters, this`inbox
      ensures waiters == 0 && inbox == old(inbox) + Repeat(outcome, old(waiters))
    {
      var resolved := 0;
      while waiters > 0
        invariant resolved + waiters == old(waiters)
        invariant inbox == old(inbox) + Repeat(outcome, resolved)
        decreases waiters
      {
        inbox := inbox + [outcome];
        waiters := waiters - 1;
        resolved := resolved + 1;
      }
    }
  }
}
