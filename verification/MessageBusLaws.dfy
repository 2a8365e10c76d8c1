/** What a bus channel does, told from its events alone: what was sent, who asked, and who gets what. */
module MessageBusLaws {
  import opened WorkflowNode
  import opened BoundedQueue
  import opened MessageBus

  // ---- The events alone ----

  ghost predicate Closes<T>(events: seq<Event<T>>) {
    exists k :: 0 <= k < |events| && events[k].Close?
  }

  /** The messages published before the channel was closed. */
  ghost function Sent<T>(events: seq<Event<T>>): seq<T> {
    if events == [] then []
    else
      var n := |events| - 1;
      Sent(events[..n]) + if events[n].Publish? && !Closes(events[..n]) then [events[n].message] else []
  }

  /** How many consumers asked. */
  ghost function Asked<T>(events: seq<Event<T>>): nat {
    if events == [] then 0 else Asked(events[..|events| - 1]) + if events[|events| - 1].Consume? then 1 else 0
  }

  /** The channel's record of what was published is what the events sent, and its tickets are the consumers that asked:
      nothing is kept off the books. */
  lemma {:induction false} BooksAreKept<T>(capacity: nat, policy: OverflowPolicy, events: seq<Event<T>>)
    requires 0 < capacity
    ensures
      var c := After(Open<T>(capacity, policy), events);
      c.published == Sent(events) && c.nextTicket == Asked(events) && (c.closed <==> Closes(events))
  {
    if events != [] {
      var n := |events| - 1;
      BooksAreKept(capacity, policy, events[..n]);
      ClosesSoFar(events);
    }
  }

  lemma ClosesSoFar<T>(events: seq<Event<T>>)
    requires events != []
    ensures Closes(events) <==> Closes(events[..|events| - 1]) || events[|events| - 1].Close?
  {
    var n := |events| - 1;
    if Closes(events[..n]) {
      var k :| 0 <= k < n && events[..n][k].Close?;
      assert events[k].Close?;
    }
  }

  // ---- Who is settled by what ----

  /** The ticket was handed out and its consumer has no answer yet. */
  predicate Waits<T>(c: Channel<T>, ticket: nat) {
    ticket < c.nextTicket && ticket !in c.settled
  }

  /** Nobody has waited longer. */
  ghost predicate WaitsLongest<T>(c: Channel<T>, ticket: nat) {
    Waits(c, ticket) && forall t :: Waits(c, t) ==> ticket <= t
  }

  lemma FirstWaiter<T>(c: Channel<T>, ticket: nat)
    requires TicketsOk(c)
    ensures (c.waiters != [] <==> exists t :: Waits(c, t))
    ensures WaitsLongest(c, ticket) ==> c.waiters != [] && c.waiters[0] == ticket
  {
    forall t: nat | Waits(c, t)
      ensures t in c.waiters
    {
    }
    if c.waiters != [] {
      assert c.waiters[0] in c.waiters && Waits(c, c.waiters[0]);
    }
  }

  /** A message published on an open channel goes to the consumer that has waited longest, and to nobody else; it is
      queued only when nobody waits, and then nobody is settled. */
  lemma PublishServesLongest<T>(c: Channel<T>, message: T, ticket: nat)
    requires Inv(c)
    ensures
      var c' := Next(c, Publish(message));
      && (c.closed ==> c' == c)
      && (!c.closed && WaitsLongest(c, ticket) ==>
            c'.settled == c.settled[ticket := Some(message)] && c'.queue == c.queue == [])
      && (!c.closed && (forall t :: !Waits(c, t)) ==> c'.settled == c.settled)
  {
    FirstWaiter(c, ticket);
  }

  /** A consumer gets the oldest message queued, an empty answer from a closed channel, and waits otherwise. */
  lemma ConsumeTakesOldest<T>(c: Channel<T>)
    requires Inv(c)
    ensures
      var c' := Next(c, Consume);
      && c'.nextTicket == c.nextTicket + 1
      && (c.closed ==> c'.settled == c.settled[c.nextTicket := None])
      && (c.queue != [] ==> c'.settled == c.settled[c.nextTicket := Some(c.queue[0])] && c'.queue == c.queue[1..])
      && (!c.closed && c.queue == [] ==> c'.settled == c.settled && c'.queue == [] && Waits(c', c.nextTicket))
  {
  }

  /** A timer settles its own consumer, with nothing, and only if it still waits. */
  lemma TimeoutSettlesItsOwn<T>(c: Channel<T>, ticket: nat)
    requires Inv(c)
    ensures
      var c' := Next(c, Timeout(ticket));
      && c'.settled == (if Waits(c, ticket) then c.settled[ticket := None] else c.settled)
      && c'.queue == c.queue && c'.nextTicket == c.nextTicket
  {
  }

  /** A close settles everyone who waits, with nothing, and changes no answer given before. */
  lemma CloseSettlesAll<T>(c: Channel<T>, ticket: nat)
    requires Inv(c) && ticket < c.nextTicket
    ensures
      var c' := Next(c, Close);
      && c'.closed && c'.queue == [] && c'.nextTicket == c.nextTicket
      && ticket in c'.settled
      && c'.settled[ticket] == if Waits(c, ticket) then None else c.settled[ticket]
  {
  }

  // ---- Consumers and messages are matched in order ----

  /** The consumers served so far are the first ones, each with the message of its own number. */
  ghost predicate Matched<T>(c: Channel<T>) {
    && !c.closed
    && (forall t: nat :: t in c.settled <==> t < |c.deliveries|)
    && (forall t: nat :: t < |c.deliveries| ==> c.settled[t] == Some(Messages(c.deliveries)[t]))
  }

  lemma MatchedNext<T>(c: Channel<T>, e: Event<T>)
    requires Inv(c) && Matched(c) && (e.Publish? || e.Consume?)
    ensures Matched(Next(c, e))
  {
    if e.Publish? && c.waiters != [] {
      MatchedPublish(c, e.message);
    } else if e.Consume? && c.queue != [] {
      MatchedConsume(c);
    }
  }

  lemma MatchedPublish<T>(c: Channel<T>, message: T)
    requires Inv(c) && Matched(c) && c.waiters != []
    ensures Matched(Next(c, Publish(message)))
  {
    var ticket := c.waiters[0];
    assert ticket in c.waiters && Waits(c, |c.deliveries|);
    LongestWaiter(c);
    FirstWaiter(c, |c.deliveries|);
    ServedNext(c, Next(c, Publish(message)), message);
  }

  lemma LongestWaiter<T>(c: Channel<T>)
    requires Matched(c) && Waits(c, |c.deliveries|)
    ensures WaitsLongest(c, |c.deliveries|)
  {
  }

  lemma ServedNext<T>(c: Channel<T>, c': Channel<T>, message: T)
    requires Matched(c) && !c'.closed && c'.settled == c.settled[|c.deliveries| := Some(message)]
    requires c'.deliveries == c.deliveries + [(|c.deliveries|, message)]
    ensures Matched(c')
  {
    MessagesAppend(c.deliveries, |c.deliveries|, message);
  }

  lemma MatchedConsume<T>(c: Channel<T>)
    requires Inv(c) && Matched(c) && c.queue != []
    ensures Matched(Next(c, Consume))
  {
    ServedAll(c);
    ServedNext(c, Next(c, Consume), c.queue[0]);
  }

  lemma ServedAll<T>(c: Channel<T>)
    requires TicketsOk(c) && Matched(c) && c.waiters == []
    ensures c.nextTicket == |c.deliveries|
  {
    FirstWaiter(c, 0);
    assert c.nextTicket !in c.settled && !Waits(c, |c.deliveries|);
  }

  lemma {:induction false} StaysMatched<T>(capacity: nat, policy: OverflowPolicy, events: seq<Event<T>>)
    requires 0 < capacity && forall k :: 0 <= k < |events| ==> events[k].Publish? || events[k].Consume?
    ensures Matched(After(Open<T>(capacity, policy), events))
  {
    if events != [] {
      var n := |events| - 1;
      StaysMatched(capacity, policy, events[..n]);
      EveryInterleaving(capacity, policy, events[..n]);
      MatchedNext(After(Open<T>(capacity, policy), events[..n]), events[n]);
    }
  }

  /** However publishes and consumes interleave, as long as nothing overflowed the consumer that asked as number `t` has
      the message sent as number `t`, or waits if there is none. */
  lemma MatchedInOrder<T>(capacity: nat, policy: OverflowPolicy, events: seq<Event<T>>, t: nat)
    requires 0 < capacity && forall k :: 0 <= k < |events| ==> events[k].Publish? || events[k].Consume?
    requires t < Asked(events)
    ensures
      var c := After(Open<T>(capacity, policy), events);
      c.overflow == 0 ==>
        if t < |Sent(events)| then t in c.settled && c.settled[t] == Some(Sent(events)[t]) else Waits(c, t)
  {
    var c := After(Open<T>(capacity, policy), events);
    StaysMatched(capacity, policy, events);
    EveryInterleaving(capacity, policy, events);
    BooksAreKept(capacity, policy, events);
    if c.overflow == 0 {
      assert Messages(c.deliveries) + c.queue == Sent(events);
      if c.queue != [] {
        ServedAll(c);
      }
    }
  }

  // ---- What overflows ----

  /** The channel holds what there is room for of these messages, and counts the others. */
  ghost predicate Flooded<T>(c: Channel<T>, messages: seq<T>) {
    var over := if |messages| > c.capacity then |messages| - c.capacity else 0;
    && c.queue == (if c.policy == DropOldest then messages[over..] else messages[..|messages| - over])
    && c.overflow == over && c.waiters == [] && !c.closed
  }

  lemma FloodNext<T>(c: Channel<T>, messages: seq<T>, message: T)
    requires 0 < c.capacity && Flooded(c, messages)
    ensures Flooded(Next(c, Publish(message)), messages + [message])
  {
  }

  /** Messages that nobody asks for: as many as there is room for are kept, the newest or the oldest by the policy, and
      the others are counted. */
  lemma {:induction false} FloodKeepsByPolicy<T>(c: Channel<T>, events: seq<Event<T>>, messages: seq<T>)
    requires 0 < c.capacity && Flooded(c, [])
    requires |events| == |messages| && forall k :: 0 <= k < |events| ==> events[k] == Publish(messages[k])
    ensures Flooded(After(c, events), messages)
  {
    if messages != [] {
      var n := |messages| - 1;
      FloodKeepsByPolicy(c, events[..n], messages[..n]);
      FloodNext(After(c, events[..n]), messages[..n], messages[n]);
      assert messages[..n] + [messages[n]] == messages;
    }
  }
}
