/** One channel of the in-memory message bus: publishers, waiting consumers, their timers and the close. */
module MessageBus {
  import opened WorkflowNode
  import opened BoundedQueue

  // ---- The channel as a state machine ----

  /** Every `consume` call is known by its ticket; `settled` says what its promise resolved to. */
  datatype Channel<T> = Channel(
    capacity: nat,
    policy: OverflowPolicy,
    queue: seq<T>,
    waiters: seq<nat>,
    settled: map<nat, Option<T>>,
    nextTicket: nat,
    closed: bool,
    overflow: nat,
    cleared: nat,
    published: seq<T>,
    deliveries: seq<(nat, T)>)

  datatype Event<T> = Publish(message: T) | Consume | Timeout(ticket: nat) | Close

  function Open<T>(capacity: nat, policy: OverflowPolicy): Channel<T> {
    Channel(capacity, policy, [], [], map[], 0, false, 0, 0, [], [])
  }

  function Deliver<T>(c: Channel<T>, ticket: nat, message: T): Channel<T> {
    c.(settled := c.settled[ticket := Some(message)], deliveries := c.deliveries + [(ticket, message)])
  }

  function Without(waiters: seq<nat>, ticket: nat): (r: seq<nat>)
    ensures forall t :: t in r ==> t in waiters
    ensures ticket !in waiters ==> r == waiters
  {
    if waiters == [] then []
    else if waiters[0] == ticket then waiters[1..]
    else [waiters[0]] + Without(waiters[1..], ticket)
  }

  function SettleNone<T>(settled: map<nat, Option<T>>, waiters: seq<nat>): map<nat, Option<T>> {
    map t | t in settled.Keys + (set w | w in waiters) :: if t in settled then settled[t] else None
  }

  function Next<T>(c: Channel<T>, e: Event<T>): Channel<T>
    requires 0 < c.capacity
  {
    match e
    case Publish(message) =>
      if c.closed then c else
        var c1 := c.(published := c.published + [message]);
        if c.waiters != [] then Deliver(c1.(waiters := c.waiters[1..]), c.waiters[0], message)
        else
          var (queue, dropped) := FifoPush(c.queue, c.capacity, c.policy, message);
          c1.(queue := queue, overflow := c.overflow + if dropped.Some? then 1 else 0)
    case Consume =>
      var ticket := c.nextTicket;
      var c1 := c.(nextTicket := ticket + 1);
      if c.closed then c1.(settled := c.settled[ticket := None])
      else if c.queue != [] then Deliver(c1.(queue := c.queue[1..]), ticket, c.queue[0])
      else c1.(waiters := c.waiters + [ticket])
    case Timeout(ticket) =>
      if ticket in c.waiters then c.(waiters := Without(c.waiters, ticket), settled := c.settled[ticket := None]) else c
    case Close =>
      c.(closed := true, settled := SettleNone(c.settled, c.waiters), waiters := [], queue := [],
         cleared := c.cleared + |c.queue|)
  }

  function After<T>(c: Channel<T>, events: seq<Event<T>>): (r: Channel<T>)
    requires 0 < c.capacity
    ensures r.capacity == c.capacity && r.policy == c.policy
  {
    if events == [] then c else Next(After(c, events[..|events| - 1]), events[|events| - 1])
  }

  // ---- Order-preserving subsequences ----

  /** `a` is `b` with some elements left out. */
  ghost predicate Sub<T>(a: seq<T>, b: seq<T>) {
    a == [] || (b != [] &&
      var b' := b[..|b| - 1];
      Sub(a, b') || (a[|a| - 1] == b[|b| - 1] && Sub(a[..|a| - 1], b')))
  }

  lemma SubGrow<T>(a: seq<T>, b: seq<T>, x: T)
    requires Sub(a, b)
    ensures Sub(a, b + [x]) && Sub(a + [x], b + [x])
  {
    assert (a + [x])[..|a|] == a && (b + [x])[..|b|] == b;
  }

  /** Leaving out one more element. */
  lemma {:induction false} SubDrop<T>(a: seq<T>, y: T, c: seq<T>, b: seq<T>)
    requires Sub(a + [y] + c, b)
    ensures Sub(a + c, b)
    decreases |b|
  {
    var whole := a + [y] + c;
    var b' := b[..|b| - 1];
    if c == [] {
      assert whole[..|whole| - 1] == a && a + c == a;
      if Sub(whole, b') {
        SubDrop(a, y, c, b');
      }
    } else {
      var c' := c[..|c| - 1];
      assert whole[..|whole| - 1] == a + [y] + c' && (a + c)[..|a + c| - 1] == a + c';
      if Sub(whole, b') {
        SubDrop(a, y, c, b');
      } else {
        SubDrop(a, y, c', b');
      }
    }
  }

  lemma {:induction false} SubPrefix<T>(a: seq<T>, c: seq<T>, b: seq<T>)
    requires Sub(a + c, b)
    ensures Sub(a, b)
  {
    if c == [] {
      assert a + c == a;
    } else {
      assert a + c == a + [c[0]] + c[1..];
      SubDrop(a, c[0], c[1..], b);
      SubPrefix(a, c[1..], b);
    }
  }

  // ---- What every interleaving keeps ----

  function Messages<T>(deliveries: seq<(nat, T)>): (r: seq<T>)
    ensures |r| == |deliveries|
  {
    if deliveries == [] then [] else Messages(deliveries[..|deliveries| - 1]) + [deliveries[|deliveries| - 1].1]
  }

  ghost predicate Rising(tickets: seq<nat>) {
    forall a, b :: 0 <= a < b < |tickets| ==> tickets[a] < tickets[b]
  }

  lemma RisingAppend(tickets: seq<nat>, ticket: nat)
    requires Rising(tickets) && forall t :: t in tickets ==> t < ticket
    ensures Rising(tickets + [ticket]) && forall t :: t in tickets + [ticket] <==> t in tickets || t == ticket
  {
    assert forall a :: 0 <= a < |tickets| ==> tickets[a] in tickets;
  }

  /** A ticket was handed out, and either still waits, in the order of asking, or is settled. */
  ghost predicate TicketsOk<T>(c: Channel<T>) {
    && Rising(c.waiters)
    && (forall t :: t in c.waiters ==> t < c.nextTicket && t !in c.settled)
    && (forall t :: t in c.settled ==> t < c.nextTicket)
    && (forall t :: 0 <= t < c.nextTicket ==> t in c.settled || t in c.waiters)
  }

  /** Each delivery is the settlement of its own consumer. */
  ghost predicate DeliveriesOk<T>(c: Channel<T>) {
    && (forall d :: 0 <= d < |c.deliveries| ==>
          c.deliveries[d].0 in c.settled && c.settled[c.deliveries[d].0] == Some(c.deliveries[d].1))
    && (forall a, b :: 0 <= a < b < |c.deliveries| ==> c.deliveries[a].0 != c.deliveries[b].0)
    && (forall t :: t in c.settled && c.settled[t].Some? ==> (t, c.settled[t].value) in c.deliveries)
  }

  ghost predicate FlowOk<T>(c: Channel<T>) {
    && Sub(Messages(c.deliveries) + c.queue, c.published)
    && |c.published| == |c.deliveries| + |c.queue| + c.overflow + c.cleared
    && (c.overflow == 0 && !c.closed ==> Messages(c.deliveries) + c.queue == c.published)
    && |c.queue| <= c.capacity
    && (c.waiters != [] ==> c.queue == [])
    && (c.closed ==> c.queue == [] && c.waiters == [])
    && (!c.closed ==> c.cleared == 0)
  }

  ghost predicate Inv<T>(c: Channel<T>) {
    0 < c.capacity && TicketsOk(c) && DeliveriesOk(c) && FlowOk(c)
  }

  lemma MessagesAppend<T>(deliveries: seq<(nat, T)>, ticket: nat, message: T)
    ensures Messages(deliveries + [(ticket, message)]) == Messages(deliveries) + [message]
  {
    assert (deliveries + [(ticket, message)])[..|deliveries|] == deliveries;
  }

  lemma {:induction false} WithoutOnce(waiters: seq<nat>, ticket: nat)
    requires ticket in waiters && Rising(waiters)
    ensures Rising(Without(waiters, ticket))
    ensures forall t :: t in Without(waiters, ticket) <==> t in waiters && t != ticket
  {
    var rest := waiters[1..];
    HeadLeaves(waiters);
    if waiters[0] != ticket {
      WithoutOnce(rest, ticket);
      HeadStays(waiters[0], rest, Without(rest, ticket));
    }
  }

  lemma HeadStays(first: nat, rest: seq<nat>, fewer: seq<nat>)
    requires (forall t :: t in rest ==> first < t) && Rising(fewer) && forall t :: t in fewer ==> t in rest
    ensures Rising([first] + fewer)
  {
    assert forall k :: 0 <= k < |fewer| ==> fewer[k] in fewer;
  }

  lemma HeadLeaves(tickets: seq<nat>)
    requires Rising(tickets) && tickets != []
    ensures Rising(tickets[1..]) && forall t :: t in tickets[1..] ==> tickets[0] < t
    ensures forall t :: t in tickets <==> t == tickets[0] || t in tickets[1..]
  {
    assert tickets == [tickets[0]] + tickets[1..];
    assert forall k :: 0 <= k < |tickets[1..]| ==> tickets[1..][k] == tickets[k + 1];
  }

  lemma DirectFlows<T>(c: Channel<T>, message: T)
    requires 0 < c.capacity && FlowOk(c) && !c.closed && c.waiters != []
    ensures FlowOk(Next(c, Publish(message)))
  {
    var delivered := Messages(c.deliveries);
    MessagesAppend(c.deliveries, c.waiters[0], message);
    assert delivered + c.queue == delivered;
    SubGrow(delivered, c.published, message);
    assert delivered + [message] + c.queue == delivered + [message];
  }

  lemma TicketSettled<T>(c: Channel<T>, c': Channel<T>)
    requires TicketsOk(c) && c.waiters != []
    requires c'.waiters == c.waiters[1..] && c'.nextTicket == c.nextTicket
    requires c'.settled.Keys == c.settled.Keys + {c.waiters[0]}
    ensures TicketsOk(c')
  {
    HeadLeaves(c.waiters);
  }

  lemma WaiterServed<T>(c: Channel<T>, message: T)
    requires 0 < c.capacity && TicketsOk(c) && DeliveriesOk(c) && !c.closed && c.waiters != []
    ensures TicketsOk(Next(c, Publish(message))) && DeliveriesOk(Next(c, Publish(message)))
  {
    var c' := Next(c, Publish(message));
    assert c'.settled == c.settled[c.waiters[0] := Some(message)];
    TicketSettled(c, c');
    DeliveryRecorded(c, c', c.waiters[0], message);
  }

  lemma PublishToWaiter<T>(c: Channel<T>, message: T)
    requires Inv(c) && !c.closed && c.waiters != []
    ensures Inv(Next(c, Publish(message)))
  {
    DirectFlows(c, message);
    WaiterServed(c, message);
  }

  lemma OldestDropped<T>(delivered: seq<T>, queue: seq<T>, published: seq<T>, message: T)
    requires queue != [] && Sub(delivered + queue, published)
    ensures Sub(delivered + (queue[1..] + [message]), published + [message])
  {
    assert delivered + queue == delivered + [queue[0]] + queue[1..];
    SubDrop(delivered, queue[0], queue[1..], published);
    SubGrow(delivered + queue[1..], published, message);
    assert delivered + (queue[1..] + [message]) == delivered + queue[1..] + [message];
  }

  lemma PublishToQueue<T>(c: Channel<T>, message: T)
    requires Inv(c) && !c.closed && c.waiters == []
    ensures FlowOk(Next(c, Publish(message)))
  {
    var delivered := Messages(c.deliveries);
    if |c.queue| >= c.capacity && c.policy != RejectNewest {
      OldestDropped(delivered, c.queue, c.published, message);
    } else {
      SubGrow(delivered + c.queue, c.published, message);
      assert delivered + (c.queue + [message]) == delivered + c.queue + [message];
    }
  }

  lemma PublishKeeps<T>(c: Channel<T>, message: T)
    requires Inv(c)
    ensures Inv(Next(c, Publish(message)))
  {
    if !c.closed {
      if c.waiters != [] {
        PublishToWaiter(c, message);
      } else {
        PublishToQueue(c, message);
      }
    }
  }

  lemma ConsumeFlows<T>(c: Channel<T>)
    requires FlowOk(c) && !c.closed && c.queue != []
    ensures FlowOk(Next(c, Consume))
  {
    MessagesAppend(c.deliveries, c.nextTicket, c.queue[0]);
    assert Messages(c.deliveries) + [c.queue[0]] + c.queue[1..] == Messages(c.deliveries) + c.queue;
  }

  lemma DeliveryRecorded<T>(c: Channel<T>, c': Channel<T>, ticket: nat, message: T)
    requires DeliveriesOk(c) && ticket !in c.settled
    requires c'.settled == c.settled[ticket := Some(message)] && c'.deliveries == c.deliveries + [(ticket, message)]
    ensures DeliveriesOk(c')
  {
    forall t | t in c'.settled && c'.settled[t].Some?
      ensures (t, c'.settled[t].value) in c'.deliveries
    {
      if t != ticket {
        assert (t, c.settled[t].value) in c.deliveries;
      } else {
        assert c'.deliveries[|c.deliveries|] == (ticket, message);
      }
    }
  }

  lemma TicketServed<T>(c: Channel<T>, c': Channel<T>)
    requires TicketsOk(c) && c'.waiters == c.waiters && c'.nextTicket == c.nextTicket + 1
    requires c'.settled.Keys == c.settled.Keys + {c.nextTicket}
    ensures TicketsOk(c')
  {
  }

  /** A consumer served at once: the next ticket is settled with the head of the queue. */
  lemma ConsumerServed<T>(c: Channel<T>)
    requires 0 < c.capacity && TicketsOk(c) && DeliveriesOk(c) && !c.closed && c.queue != []
    ensures TicketsOk(Next(c, Consume)) && DeliveriesOk(Next(c, Consume))
  {
    var c' := Next(c, Consume);
    assert c'.settled == c.settled[c.nextTicket := Some(c.queue[0])];
    TicketServed(c, c');
    DeliveryRecorded(c, c', c.nextTicket, c.queue[0]);
  }

  lemma ConsumeQueued<T>(c: Channel<T>)
    requires Inv(c) && !c.closed && c.queue != []
    ensures Inv(Next(c, Consume))
  {
    ConsumeFlows(c);
    ConsumerServed(c);
  }

  lemma ConsumeKeeps<T>(c: Channel<T>)
    requires Inv(c)
    ensures Inv(Next(c, Consume))
  {
    if !c.closed && c.queue != [] {
      ConsumeQueued(c);
    } else if !c.closed {
      RisingAppend(c.waiters, c.nextTicket);
    }
  }

  lemma TimeoutKeeps<T>(c: Channel<T>, ticket: nat)
    requires Inv(c)
    ensures Inv(Next(c, Timeout(ticket)))
  {
    if ticket in c.waiters {
      WithoutOnce(c.waiters, ticket);
    }
  }

  lemma CloseKeeps<T>(c: Channel<T>)
    requires Inv(c)
    ensures Inv(Next(c, Close))
  {
    SubPrefix(Messages(c.deliveries), c.queue, c.published);
    assert Messages(c.deliveries) + [] == Messages(c.deliveries);
  }

  lemma NextKeeps<T>(c: Channel<T>, e: Event<T>)
    requires Inv(c)
    ensures Inv(Next(c, e))
  {
    match e
    case Publish(message) => PublishKeeps(c, message);
    case Consume => ConsumeKeeps(c);
    case Timeout(ticket) => TimeoutKeeps(c, ticket);
    case Close => CloseKeeps(c);
  }

  /** After any interleaving of publishes, consumes, timeouts and closes on a channel: what was delivered, followed
      by what is queued, is what was published with some messages left out, in order; nothing is lost or doubled but
      by overflow or close; nobody waits while messages queue; every consumer waits or was settled, not both, and
      each delivery went to exactly one consumer. */
  lemma {:induction false} EveryInterleaving<T>(capacity: nat, policy: OverflowPolicy, events: seq<Event<T>>)
    requires 0 < capacity
    ensures Inv(After(Open<T>(capacity, policy), events))
  {
    if events != [] {
      EveryInterleaving(capacity, policy, events[..|events| - 1]);
      NextKeeps(After(Open<T>(capacity, policy), events[..|events| - 1]), events[|events| - 1]);
    }
  }

  lemma SettledStays<T>(c: Channel<T>, e: Event<T>, ticket: nat)
    requires Inv(c) && ticket in c.settled
    ensures ticket in Next(c, e).settled && Next(c, e).settled[ticket] == c.settled[ticket]
  {
    if e.Publish? && c.waiters != [] {
      assert c.waiters[0] in c.waiters;
    }
  }

  /** A settled consume keeps its outcome through whatever happens next: each settles at most once, and in
      particular a timed-out one never gets a message. */
  lemma {:induction false} SettledOnce<T>(c: Channel<T>, events: seq<Event<T>>, ticket: nat)
    requires Inv(c) && ticket in c.settled
    ensures Inv(After(c, events))
    ensures ticket in After(c, events).settled && After(c, events).settled[ticket] == c.settled[ticket]
  {
    if events != [] {
      SettledOnce(c, events[..|events| - 1], ticket);
      var before := After(c, events[..|events| - 1]);
      NextKeeps(before, events[|events| - 1]);
      SettledStays(before, events[|events| - 1], ticket);
    }
  }

  // ---- The bus ----

  /** One direction of the bus: the queue, the waiting callbacks by ticket, and the closed flag. */
  class BusChannel<T> {
    const queue: BoundedQueue<T>
    var waiters: seq<nat>
    var settled: map<nat, Option<T>>
    var nextTicket: nat
    var closed: bool

    ghost var cleared: nat
    ghost var published: seq<T>
    ghost var deliveries: seq<(nat, T)>

    ghost predicate Valid()
      reads this, queue
    {
      queue.Valid() && 0 < queue.capacity
    }

    ghost function View(): Channel<T>
      requires Valid()
      reads this, queue
    {
      Channel(queue.capacity, queue.policy, queue.Contents(), waiters, settled, nextTicket, closed,
              queue.overflowCount, cleared, published, deliveries)
    }

    constructor (capacity: int, policy: OverflowPolicy)
      ensures Valid() && fresh(queue)
      ensures View() == Open(if capacity < 1 then 1 else capacity, policy)
    {
      queue := new BoundedQueue<T>(capacity, policy);
      waiters, settled, nextTicket, closed := [], map[], 0, false;
      cleared, published, deliveries := 0, [], [];
    }

    method PublishMessage(message: T)
      requires Valid()
      modifies this, queue
      ensures Valid() && View() == Next(old(View()), Publish(message))
    {
      if closed {
        return;
      }
      published := published + [message];
      if waiters != [] {
        var waiter := waiters[0];
        waiters := waiters[1..];
        settled := settled[waiter := Some(message)];
        deliveries := deliveries + [(waiter, message)];
        return;
      }
      var dropped := queue.Push(message);
    }

    /** Issues a ticket; its promise is settled at once when the channel is closed or holds a message. */
    method ConsumeMessage() returns (ticket: nat)
      requires Valid()
      modifies this, queue
      ensures Valid() && ticket == old(nextTicket) && View() == Next(old(View()), Consume)
    {
      ticket := nextTicket;
      nextTicket := nextTicket + 1;
      if closed {
        settled := settled[ticket := None];
        return;
      }
      var immediate := queue.Shift();
      if immediate.Some? {
        settled := settled[ticket := immediate];
        deliveries := deliveries + [(ticket, immediate.value)];
        return;
      }
      waiters := waiters + [ticket];
    }

    /** The timer of a consume that had to wait. */
    method OnTimeout(ticket: nat)
      requires Valid() && Inv(View()) && ticket < nextTicket
      modifies this`waiters, this`settled
      ensures Valid() && View() == Next(old(View()), Timeout(ticket))
    {
      waiters := Without(waiters, ticket);
      if ticket !in settled {
        settled := settled[ticket := None];
      }
    }

    /** Calls every waiting callback with nothing. */
    method SettleAll(all: seq<nat>)
      requires forall t :: t in all ==> t !in settled
      modifies this`settled
      ensures settled == SettleNone(old(settled), all)
    {
      for i := 0 to |all|
        invariant settled == SettleNone(old(settled), all[..i])
      {
        assert all[..i + 1] == all[..i] + [all[i]];
        settled := settled[all[i] := None];
      }
      assert all[..|all|] == all;
    }

    method CloseChannel()
      requires Valid() && Inv(View())
      modifies this, queue
      ensures Valid() && View() == Next(old(View()), Close)
    {
      closed := true;
      var all := waiters;
      waiters := [];
      SettleAll(all);
      var count := queue.Clear();
      cleared := cleared + count;
    }
  }
}
