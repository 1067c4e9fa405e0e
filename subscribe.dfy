/**
 * The broker connection of the rackattack client (py/rackattack/tcp/subscribe.py).
 *
 * Subscribe owns the connection and the channel, the registry from exchange
 * name to consumer tag and the channel lock that keeps subscription
 * handshakes apart. SubscribeHandshake is one handshake: a chain of
 * callbacks, each run when the broker confirms the command before it.
 *
 * The broker is not modelled. Its confirmations, deliveries and closure
 * notifications are calls on these objects. Everything the objects do to
 * the outside (channel commands, registry writes, deliveries to callbacks,
 * stopping the io loop, suicide) is appended to Subscribe.log in order.
 */
module Subscription {
  import opened Common

  const InauguratorPrefix := "inaugurator_status__"
  const ConsumerSuffix := "__consumer"

  /** The exchange an inaugurator publishes its status on. */
  function InauguratorExchange(id: string): string
  {
    InauguratorPrefix + id
  }

  /** The consumer tag used for a broker-named queue. */
  function ConsumerTag(queue: string): string
  {
    queue + ConsumerSuffix
  }

  /** Distinct inaugurators publish on distinct exchanges. */
  lemma InauguratorExchangeInjective(a: string, b: string)
    requires InauguratorExchange(a) == InauguratorExchange(b)
    ensures a == b
  {
    assert a == InauguratorExchange(a)[|InauguratorPrefix|..];
    assert b == InauguratorExchange(b)[|InauguratorPrefix|..];
  }

  /** Distinct queues get distinct consumer tags. */
  lemma ConsumerTagInjective(p: string, q: string)
    requires ConsumerTag(p) == ConsumerTag(q)
    ensures p == q
  {
    assert |p| == |q|;
    assert p == ConsumerTag(p)[..|p|];
    assert q == ConsumerTag(q)[..|q|];
  }

  /** One thing the model does to the world outside it. */
  datatype Action =
    | ExchangeDeclare(exchange: string, exchangeType: string)
    | QueueDeclare(exclusive: bool)
    | RecordConsumer(exchange: string, consumerTag: string)
    | QueueBind(queue: string, exchange: string, routingKey: string)
    | BasicConsume(queue: string, consumerTag: string)
    | BasicCancel(consumerTag: string)
    | BasicAck(deliveryTag: nat)
    | Deliver(callback: CallbackId, body: string)
    | OpenChannel
    | CloseChannel
    | CloseConnection
    | StopIoLoop
    | Suicide
  {
    /** The five kinds of action that make up a subscription handshake. */
    predicate IsHandshakeStep()
    {
      ExchangeDeclare? || QueueDeclare? || RecordConsumer? || QueueBind? || BasicConsume?
    }

    /** The two actions that only an intended closure may cause. */
    predicate IsClosing()
    {
      CloseChannel? || StopIoLoop?
    }
  }

  /** Result of an operation that uses the channel: Python raises
      AttributeError when `_channel` is None. */
  datatype Outcome = Ok | NoChannel

  /** The handshake steps among the first `n` entries of a log, in order. */
  function TraceUpTo(log: seq<Action>, n: nat): (steps: seq<Action>)
    requires n <= |log|
    ensures |steps| <= n
  {
    if n == 0 then []
    else TraceUpTo(log, n - 1) + (if log[n - 1].IsHandshakeStep() then [log[n - 1]] else [])
  }

  /** The handshake steps of a log, in order, everything else dropped. */
  function HandshakeTrace(log: seq<Action>): (steps: seq<Action>)
    ensures |steps| <= |log|
  {
    TraceUpTo(log, |log|)
  }

  /** Two logs that agree on their first `n` entries have the same steps there. */
  lemma {:induction false} TraceUpToAgree(l1: seq<Action>, l2: seq<Action>, n: nat)
    requires n <= |l1| && n <= |l2| && l1[..n] == l2[..n]
    ensures TraceUpTo(l1, n) == TraceUpTo(l2, n)
  {
    if n > 0 {
      assert l1[..n - 1] == l1[..n][..n - 1] == l2[..n][..n - 1] == l2[..n - 1];
      assert l1[n - 1] == l1[..n][n - 1] == l2[..n][n - 1] == l2[n - 1];
      TraceUpToAgree(l1, l2, n - 1);
    }
  }

  /** The handshake trace keeps only handshake actions, each taken from the log. */
  lemma {:induction false} TraceUpToOnlySteps(log: seq<Action>, n: nat)
    requires n <= |log|
    ensures forall i | 0 <= i < |TraceUpTo(log, n)| ::
      TraceUpTo(log, n)[i].IsHandshakeStep() && TraceUpTo(log, n)[i] in log
  {
    if n > 0 {
      TraceUpToOnlySteps(log, n - 1);
    }
  }

  lemma HandshakeTraceOnlySteps(log: seq<Action>)
    ensures forall i | 0 <= i < |HandshakeTrace(log)| ::
      HandshakeTrace(log)[i].IsHandshakeStep() && HandshakeTrace(log)[i] in log
  {
    TraceUpToOnlySteps(log, |log|);
  }

  lemma {:induction false} HandshakeTraceAppend(a: seq<Action>, b: seq<Action>)
    ensures HandshakeTrace(a + b) == HandshakeTrace(a) + HandshakeTrace(b)
    decreases |b|
  {
    if b == [] {
      assert a + b == a;
    } else {
      var b' := b[..|b| - 1];
      assert (a + b)[..|a + b'|] == (a + b')[..|a + b'|];
      TraceUpToAgree(a + b, a + b', |a + b'|);
      assert b[..|b'|] == b'[..|b'|];
      TraceUpToAgree(b, b', |b'|);
      assert (a + b)[|a + b| - 1] == b[|b| - 1];
      HandshakeTraceAppend(a, b');
    }
  }

  /** A log entry that is not a handshake step leaves the handshake trace alone. */
  lemma HandshakeTraceAppendOther(log: seq<Action>, x: Action)
    requires !x.IsHandshakeStep()
    ensures HandshakeTrace(log + [x]) == HandshakeTrace(log)
  {
    assert (log + [x])[..|log|] == log[..|log|];
    TraceUpToAgree(log + [x], log, |log|);
  }

  /** A handshake step is appended to the handshake trace. */
  lemma HandshakeTraceAppendStep(log: seq<Action>, x: Action)
    requires x.IsHandshakeStep()
    ensures HandshakeTrace(log + [x]) == HandshakeTrace(log) + [x]
  {
    assert (log + [x])[..|log|] == log[..|log|];
    TraceUpToAgree(log + [x], log, |log|);
  }

  /** The complete handshake for an exchange whose queue the broker named `queue`:
      a fanout exchange, an exclusive queue, the consumer tag written to the
      registry, a bind with the empty routing key, and consumption. */
  function FullHandshake(exchange: string, queue: string): seq<Action>
  {
    [ ExchangeDeclare(exchange, "fanout"),
      QueueDeclare(true),
      RecordConsumer(exchange, ConsumerTag(queue)),
      QueueBind(queue, exchange, ""),
      BasicConsume(queue, ConsumerTag(queue)) ]
  }

  predicate IsFullHandshake(b: seq<Action>)
  {
    |b| == 5 && b[0].ExchangeDeclare? && b[3].QueueBind? && b == FullHandshake(b[0].exchange, b[3].queue)
  }

  /** Complete handshakes, one after another, with no step of another handshake between. */
  predicate BackToBack(p: seq<Action>)
    decreases |p|
  {
    p == [] || (5 <= |p| && IsFullHandshake(p[..5]) && BackToBack(p[5..]))
  }

  lemma {:induction false} BackToBackAppend(p: seq<Action>, q: seq<Action>)
    requires BackToBack(p) && BackToBack(q)
    ensures BackToBack(p + q)
    decreases |p|
  {
    if p == [] {
      assert p + q == q;
    } else {
      BackToBackAppend(p[5..], q);
      assert (p + q)[..5] == p[..5];
      assert (p + q)[5..] == p[5..] + q;
    }
  }

  /** Reading a back-to-back run: it is a whole number of handshakes and the
      k-th block of five steps is one complete handshake. */
  lemma {:induction false} BackToBackBlock(p: seq<Action>, k: nat)
    requires BackToBack(p) && 5 * k < |p|
    ensures |p| % 5 == 0 && 5 * k + 5 <= |p| && IsFullHandshake(p[5 * k .. 5 * k + 5])
    decreases k
  {
    if k == 0 {
      BackToBackLength(p);
    } else {
      BackToBackBlock(p[5..], k - 1);
      assert p[5..][5 * (k - 1) .. 5 * (k - 1) + 5] == p[5 * k .. 5 * k + 5];
    }
  }

  lemma {:induction false} BackToBackLength(p: seq<Action>)
    requires BackToBack(p)
    ensures |p| % 5 == 0
    decreases |p|
  {
    if p != [] {
      BackToBackLength(p[5..]);
    }
  }

  /** The handshake steps of the handshakes completed for `done`, a list of
      (exchange, queue) pairs, in order. */
  function Handshakes(done: seq<(string, string)>): (steps: seq<Action>)
    ensures |steps| == 5 * |done|
  {
    if done == [] then []
    else
      var last := done[|done| - 1];
      Handshakes(done[..|done| - 1]) + FullHandshake(last.0, last.1)
  }

  lemma HandshakesAppend(done: seq<(string, string)>, exchange: string, queue: string)
    ensures Handshakes(done + [(exchange, queue)]) == Handshakes(done) + FullHandshake(exchange, queue)
  {
    assert (done + [(exchange, queue)])[..|done|] == done;
  }

  /** The last step of the in-flight handshake turns it into one more completed handshake. */
  lemma CompletionSteps(done: seq<(string, string)>, inFlight: seq<Action>, exchange: string, queue: string)
    requires inFlight == FullHandshake(exchange, queue)
    ensures Handshakes(done) + inFlight == Handshakes(done + [(exchange, queue)]) + []
  {
    HandshakesAppend(done, exchange, queue);
    assert Handshakes(done + [(exchange, queue)]) + [] == Handshakes(done + [(exchange, queue)]);
  }

  /** Completed handshakes never interleave: their steps form whole handshakes back to back. */
  lemma {:induction false} HandshakesBackToBack(done: seq<(string, string)>)
    ensures BackToBack(Handshakes(done))
    decreases |done|
  {
    if done != [] {
      var last := done[|done| - 1];
      var full := FullHandshake(last.0, last.1);
      HandshakesBackToBack(done[..|done| - 1]);
      assert full[..5] == full && full[5..] == [];
      BackToBackAppend(Handshakes(done[..|done| - 1]), full);
    }
  }

  /** No action of the log closes the channel or stops the io loop. */
  predicate NoClosingUpTo(log: seq<Action>, n: nat)
    requires n <= |log|
  {
    n == 0 || (NoClosingUpTo(log, n - 1) && !log[n - 1].IsClosing())
  }

  predicate NoClosing(log: seq<Action>)
  {
    NoClosingUpTo(log, |log|)
  }

  lemma {:induction false} NoClosingUpToAgree(l1: seq<Action>, l2: seq<Action>, n: nat)
    requires n <= |l1| && n <= |l2| && l1[..n] == l2[..n]
    ensures NoClosingUpTo(l1, n) == NoClosingUpTo(l2, n)
  {
    if n > 0 {
      assert l1[..n - 1] == l1[..n][..n - 1] == l2[..n][..n - 1] == l2[..n - 1];
      assert l1[n - 1] == l1[..n][n - 1] == l2[..n][n - 1] == l2[n - 1];
      NoClosingUpToAgree(l1, l2, n - 1);
    }
  }

  lemma NoClosingAppend(log: seq<Action>, x: Action)
    ensures NoClosing(log + [x]) == (NoClosing(log) && !x.IsClosing())
  {
    assert (log + [x])[..|log|] == log[..|log|];
    NoClosingUpToAgree(log + [x], log, |log|);
  }

  lemma {:induction false} NoClosingUpToMeans(log: seq<Action>, n: nat)
    requires n <= |log|
    ensures NoClosingUpTo(log, n) <==> forall i | 0 <= i < n :: !log[i].IsClosing()
  {
    if n > 0 {
      NoClosingUpToMeans(log, n - 1);
    }
  }

  lemma NoClosingMeans(log: seq<Action>)
    ensures NoClosing(log) <==> CloseChannel !in log && StopIoLoop !in log
  {
    NoClosingUpToMeans(log, |log|);
  }

  /** Where a handshake stands. WaitingForLock: the register call is blocked on
      the channel lock. Broken: the lock was taken on a None channel and the
      first command raised, so the lock is never released. */
  datatype Phase = WaitingForLock | DeclaringExchange | DeclaringQueue | Binding | Consuming | Broken
  {
    predicate HoldsLock()
    {
      DeclaringExchange? || DeclaringQueue? || Binding? || Broken?
    }
  }

  /** The handshake steps a handshake in `phase` has issued so far. */
  function IssuedSteps(phase: Phase, exchange: string, queue: string): seq<Action>
  {
    var full := FullHandshake(exchange, queue);
    match phase
    case WaitingForLock => []
    case Broken => []
    case DeclaringExchange => full[..1]
    case DeclaringQueue => full[..2]
    case Binding => full[..4]
    case Consuming => full
  }

  /** A handshake has issued a prefix of its full handshake, all of it once consuming. */
  lemma IssuedStepsPrefix(phase: Phase, exchange: string, queue: string)
    ensures phase.Consuming? ==> IsFullHandshake(IssuedSteps(phase, exchange, queue))
    ensures var steps := IssuedSteps(phase, exchange, queue);
      |steps| <= 5 && steps == FullHandshake(exchange, queue)[..|steps|]
  {
    var full := FullHandshake(exchange, queue);
    assert full[..5] == full;
  }

  /** The steps issued in each phase: each confirmation adds the next steps. */
  lemma IssuedFirst(exchange: string, queue: string)
    ensures IssuedSteps(DeclaringExchange, exchange, queue) == [ExchangeDeclare(exchange, "fanout")]
  {
  }

  lemma IssuedSecond(exchange: string, queue: string, queue': string)
    ensures IssuedSteps(DeclaringQueue, exchange, queue')
      == IssuedSteps(DeclaringExchange, exchange, queue) + [QueueDeclare(true)]
  {
  }

  lemma IssuedBinding(exchange: string, queue: string, queue': string)
    ensures IssuedSteps(Binding, exchange, queue')
      == IssuedSteps(DeclaringQueue, exchange, queue)
         + [RecordConsumer(exchange, ConsumerTag(queue')), QueueBind(queue', exchange, "")]
  {
  }

  lemma IssuedAll(exchange: string, queue: string)
    ensures IssuedSteps(Binding, exchange, queue) + [BasicConsume(queue, ConsumerTag(queue))]
      == FullHandshake(exchange, queue)
  {
  }

  class Subscribe {
    /** `_registered`: exchange name to consumer tag. */
    var registered: map<string, string>
    /** `_channel is not None`. */
    var hasChannel: bool
    /** `_channelLock` is held. */
    var lockHeld: bool
    /** `_readyEvent` is set. */
    var ready: bool
    /** `_closed`. */
    var closed: bool
    /** Everything the object has done to the outside, in order. */
    var log: seq<Action>
    /** `publish.Publish.allocationExchange`, a module that is not part of this model. */
    const allocationExchange: string -> string
    /** `publish.Publish.ALL_HOSTS_ALLOCATIONS_EXCHANGE_NAME`. */
    const allAllocationsExchange: string

    /** The handshake that holds the channel lock, if any. */
    ghost var holder: SubscribeHandshake?
    /** Exchange and queue of every handshake that reached Consuming, in order. */
    ghost var completed: seq<(string, string)>
    /** The handshake steps the lock holder has issued so far. */
    ghost var inFlight: seq<Action>
    /** The handshake steps of the log. */
    ghost var steps: seq<Action>
    /** Whether the log holds an action that closes the channel or stops the io loop. */
    ghost var closingSeen: bool

    /** `steps` and `closingSeen` summarise `log`. */
    ghost predicate LogSummary()
      reads this`log, this`steps, this`closingSeen
    {
      steps == HandshakeTrace(log) && closingSeen == !NoClosing(log)
    }

    /** The lock is held exactly while a handshake is between taking it and
        issuing basic_consume; the handshake steps in the log are the completed
        handshakes one after another, followed by the steps the holder issued
        so far; the io loop is stopped and the channel closed only after close(). */
    ghost predicate Valid()
      reads this`lockHeld, this`holder, this`log, this`completed, this`inFlight, this`closed, this`steps, this`closingSeen
    {
      && LogSummary()
      && lockHeld == (holder != null)
      && (holder == null ==> inFlight == [])
      && steps == Handshakes(completed) + inFlight
      && (!closed ==> !closingSeen)
    }

    /** Perform an action that is no handshake step; before close() it must
        not close the channel or stop the io loop. */
    method Perform(x: Action)
      requires Valid() && !x.IsHandshakeStep() && (!closed ==> !x.IsClosing())
      modifies this`log, this`closingSeen
      ensures Valid()
      ensures log == old(log) + [x]
      ensures closingSeen == (old(closingSeen) || x.IsClosing())
    {
      HandshakeTraceAppendOther(log, x);
      NoClosingAppend(log, x);
      log := log + [x];
      closingSeen := closingSeen || x.IsClosing();
    }

    /** `_channelLock.acquire()` by handshake `h`. */
    method TakeLock(h: SubscribeHandshake)
      requires Valid() && !lockHeld
      modifies this`lockHeld, this`holder
      ensures Valid() && lockHeld && holder == h && inFlight == []
    {
      lockHeld := true;
      holder := h;
    }

    /** The lock holder issues handshake step `x`; a bind is sent only once
        the registry holds the consumer tag of the queue being bound. */
    method IssueStep(x: Action)
      requires Valid() && lockHeld && x.IsHandshakeStep()
      requires x.QueueBind? ==> x.exchange in registered && registered[x.exchange] == ConsumerTag(x.queue)
      modifies this`log, this`steps, this`inFlight
      ensures Valid()
      ensures log == old(log) + [x] && inFlight == old(inFlight) + [x]
    {
      HandshakeTraceAppendStep(log, x);
      NoClosingAppend(log, x);
      assert Handshakes(completed) + inFlight + [x] == Handshakes(completed) + (inFlight + [x]);
      log := log + [x];
      steps := steps + [x];
      inFlight := inFlight + [x];
    }

    /** The lock holder, having issued its full handshake, releases the lock. */
    method ReleaseLock(exchange: string, queue: string)
      requires Valid() && lockHeld
      requires inFlight == FullHandshake(exchange, queue)
      modifies this`inFlight, this`completed, this`holder, this`lockHeld
      ensures Valid() && !lockHeld
      ensures completed == old(completed) + [(exchange, queue)]
    {
      CompletionSteps(completed, inFlight, exchange, queue);
      completed := completed + [(exchange, queue)];
      inFlight := [];
      holder := null;
      lockHeld := false;
    }

    /** `__init__`, with the connection object that `run` creates already in
        place; opening it is OnConnectionOpen. */
    constructor (allocationExchange: string -> string, allAllocationsExchange: string)
      ensures Valid()
      ensures registered == map[] && !hasChannel && !lockHeld && !ready && !closed && log == []
      ensures this.allocationExchange == allocationExchange
      ensures this.allAllocationsExchange == allAllocationsExchange
    {
      registered := map[];
      hasChannel := false;
      lockHeld := false;
      ready := false;
      closed := false;
      log := [];
      this.allocationExchange := allocationExchange;
      this.allAllocationsExchange := allAllocationsExchange;
      holder := null;
      completed := [];
      inFlight := [];
      steps := [];
      closingSeen := false;
    }

    /** `_registerToExchange`: the exchange must not be registered; the
        handshake is created waiting for the channel lock, with the channel
        as it is now. Nothing else changes yet. */
    method RegisterToExchange(exchange: string, callback: CallbackId) returns (h: SubscribeHandshake)
      requires Valid()
      requires exchange !in registered
      ensures fresh(h) && h.Valid()
      ensures h.owner == this && h.exchange == exchange && h.callback == callback
      ensures h.phase == WaitingForLock && h.channelPresent == hasChannel
    {
      h := new SubscribeHandshake(this, exchange, callback);
    }

    method RegisterForInaugurator(id: string, callback: CallbackId) returns (h: SubscribeHandshake)
      requires Valid()
      requires InauguratorExchange(id) !in registered
      ensures fresh(h) && h.Valid()
      ensures h.owner == this && h.exchange == InauguratorExchange(id) && h.callback == callback
      ensures h.phase == WaitingForLock && h.channelPresent == hasChannel
    {
      h := RegisterToExchange(InauguratorExchange(id), callback);
    }

    method RegisterForAllocation(id: string, callback: CallbackId) returns (h: SubscribeHandshake)
      requires Valid()
      requires allocationExchange(id) !in registered
      ensures fresh(h) && h.Valid()
      ensures h.owner == this && h.exchange == allocationExchange(id) && h.callback == callback
      ensures h.phase == WaitingForLock && h.channelPresent == hasChannel
    {
      h := RegisterToExchange(allocationExchange(id), callback);
    }

    method RegisterForAllAllocations(callback: CallbackId) returns (h: SubscribeHandshake)
      requires Valid()
      requires allAllocationsExchange !in registered
      ensures fresh(h) && h.Valid()
      ensures h.owner == this && h.exchange == allAllocationsExchange && h.callback == callback
      ensures h.phase == WaitingForLock && h.channelPresent == hasChannel
    {
      h := RegisterToExchange(allAllocationsExchange, callback);
    }

    /** `_unregisterFromExchange`: the exchange must be registered; its
        consumer is cancelled and exactly that entry is removed. */
    method UnregisterFromExchange(exchange: string) returns (r: Outcome)
      requires Valid()
      requires exchange in registered
      modifies this`registered, this`log, this`closingSeen
      ensures Valid()
      ensures old(hasChannel) ==> r == Ok && log == old(log) + [BasicCancel(old(registered)[exchange])]
      ensures old(hasChannel) ==> registered == old(registered) - {exchange}
      ensures old(hasChannel) ==> forall x | x in old(registered) && x != exchange :: x in registered && registered[x] == old(registered)[x]
      ensures !old(hasChannel) ==> r == NoChannel && log == old(log) && registered == old(registered)
    {
      if !hasChannel {
        return NoChannel;
      }
      Perform(BasicCancel(registered[exchange]));
      registered := registered - {exchange};
      r := Ok;
    }

    method UnregisterForInaugurator(id: string) returns (r: Outcome)
      requires Valid()
      requires InauguratorExchange(id) in registered
      modifies this`registered, this`log, this`closingSeen
      ensures Valid()
      ensures old(hasChannel) ==> r == Ok && log == old(log) + [BasicCancel(old(registered)[InauguratorExchange(id)])]
      ensures old(hasChannel) ==> registered == old(registered) - {InauguratorExchange(id)}
      ensures !old(hasChannel) ==> r == NoChannel && log == old(log) && registered == old(registered)
    {
      r := UnregisterFromExchange(InauguratorExchange(id));
    }

    method UnregisterForAllocation(id: string) returns (r: Outcome)
      requires Valid()
      requires allocationExchange(id) in registered
      modifies this`registered, this`log, this`closingSeen
      ensures Valid()
      ensures old(hasChannel) ==> r == Ok && log == old(log) + [BasicCancel(old(registered)[allocationExchange(id)])]
      ensures old(hasChannel) ==> registered == old(registered) - {allocationExchange(id)}
      ensures !old(hasChannel) ==> r == NoChannel && log == old(log) && registered == old(registered)
    {
      r := UnregisterFromExchange(allocationExchange(id));
    }

    method UnregisterForAllAllocations() returns (r: Outcome)
      requires Valid()
      requires allAllocationsExchange in registered
      modifies this`registered, this`log, this`closingSeen
      ensures Valid()
      ensures old(hasChannel) ==> r == Ok && log == old(log) + [BasicCancel(old(registered)[allAllocationsExchange])]
      ensures old(hasChannel) ==> registered == old(registered) - {allAllocationsExchange}
      ensures !old(hasChannel) ==> r == NoChannel && log == old(log) && registered == old(registered)
    {
      r := UnregisterFromExchange(allAllocationsExchange);
    }

    /** `close`: marks the closure as intended first, then closes the channel
        and the connection. */
    method Close() returns (r: Outcome)
      requires Valid()
      modifies this`closed, this`log, this`closingSeen
      ensures Valid() && closed
      ensures old(hasChannel) ==> r == Ok && log == old(log) + [CloseChannel, CloseConnection]
      ensures !old(hasChannel) ==> r == NoChannel && log == old(log)
    {
      closed := true;
      if !hasChannel {
        return NoChannel;
      }
      Perform(CloseChannel);
      Perform(CloseConnection);
      r := Ok;
    }

    /** `_onConnectionClosed`: the channel is dropped; a closure that close()
        asked for stops the io loop, any other one is fatal. */
    method OnConnectionClosed()
      requires Valid()
      modifies this`hasChannel, this`log, this`closingSeen
      ensures Valid() && !hasChannel
      ensures closed ==> log == old(log) + [StopIoLoop]
      ensures !closed ==> log == old(log) + [Suicide]
    {
      hasChannel := false;
      var a := if closed then StopIoLoop else Suicide;
      Perform(a);
    }

    /** `_onConnectionOpen`: asks for a channel. */
    method OnConnectionOpen()
      requires Valid()
      modifies this`log, this`closingSeen
      ensures Valid() && log == old(log) + [OpenChannel]
    {
      Perform(OpenChannel);
    }

    /** `_onChannelClosed`: a lost channel is escalated to closing the connection. */
    method OnChannelClosed()
      requires Valid()
      modifies this`log, this`closingSeen
      ensures Valid() && log == old(log) + [CloseConnection]
    {
      Perform(CloseConnection);
    }

    /** `_onChannelOpen`: the channel is in place and the ready event is set. */
    method OnChannelOpen()
      requires Valid()
      modifies this`hasChannel, this`ready
      ensures Valid() && hasChannel && ready
    {
      hasChannel := true;
      ready := true;
    }
  }

  /** `_Subscribe`: one subscription handshake for `exchange`. */
  class SubscribeHandshake {
    const owner: Subscribe
    /** Whether the channel handed over at registration was not None. */
    const channelPresent: bool
    const exchange: string
    const callback: CallbackId
    var queueName: string
    var consumerTag: string
    var phase: Phase

    /** The owner is consistent; this handshake holds the lock exactly in the
        phases between taking it and consuming, and then the owner's in-flight
        steps are the ones this handshake issued. */
    ghost predicate Valid()
      reads this`phase, this`consumerTag, this`queueName
      reads owner`lockHeld, owner`holder, owner`log, owner`steps, owner`completed, owner`inFlight, owner`closed, owner`closingSeen
    {
      && owner.Valid()
      && (phase.HoldsLock() <==> owner.holder == this)
      && (owner.holder == this ==> owner.inFlight == IssuedSteps(phase, exchange, queueName))
      && ((phase.Binding? || phase.Consuming?) ==> consumerTag == ConsumerTag(queueName))
    }

    constructor (owner: Subscribe, exchange: string, callback: CallbackId)
      requires owner.Valid()
      ensures Valid()
      ensures this.owner == owner && this.exchange == exchange && this.callback == callback
      ensures channelPresent == owner.hasChannel && phase == WaitingForLock
    {
      this.owner := owner;
      this.exchange := exchange;
      this.callback := callback;
      channelPresent := owner.hasChannel;
      queueName := "";
      consumerTag := "";
      phase := WaitingForLock;
    }

    /** The first half of `__init__`'s work: take the channel lock, then
        declare the exchange as fanout. On a None channel the declaration
        raises and the lock stays held. */
    method Acquire() returns (r: Outcome)
      requires Valid() && phase == WaitingForLock && !owner.lockHeld
      modifies this`phase, owner`lockHeld, owner`holder, owner`log, owner`steps, owner`inFlight
      ensures Valid() && owner.lockHeld && owner.holder == this
      ensures channelPresent ==> r == Ok && phase == DeclaringExchange
      ensures channelPresent ==> owner.log == old(owner.log) + [ExchangeDeclare(exchange, "fanout")]
      ensures !channelPresent ==> r == NoChannel && phase == Broken && owner.log == old(owner.log)
    {
      owner.TakeLock(this);
      if channelPresent {
        IssuedFirst(exchange, queueName);
        assert [] + [ExchangeDeclare(exchange, "fanout")] == [ExchangeDeclare(exchange, "fanout")];
        owner.IssueStep(ExchangeDeclare(exchange, "fanout"));
        phase := DeclaringExchange;
        r := Ok;
      } else {
        phase := Broken;
        r := NoChannel;
      }
    }

    /** `_onExchangeDeclared`: declare an exclusive, broker-named queue. */
    method OnExchangeDeclared()
      requires Valid() && phase == DeclaringExchange
      modifies this`phase, owner`log, owner`steps, owner`inFlight
      ensures Valid() && phase == DeclaringQueue && owner.lockHeld
      ensures owner.log == old(owner.log) + [QueueDeclare(true)]
    {
      IssuedSecond(exchange, queueName, queueName);
      owner.IssueStep(QueueDeclare(true));
      phase := DeclaringQueue;
    }

    /** `_onQueueDeclared`: derive the consumer tag from the broker's queue
        name, write it to the registry, then bind with the empty routing key. */
    method OnQueueDeclared(queue: string)
      requires Valid() && phase == DeclaringQueue
      modifies this`queueName, this`consumerTag, this`phase, owner`registered, owner`log, owner`steps, owner`inFlight
      ensures Valid() && phase == Binding && owner.lockHeld
      ensures queueName == queue && consumerTag == ConsumerTag(queue)
      ensures owner.registered == old(owner.registered)[exchange := ConsumerTag(queue)]
      ensures owner.log == old(owner.log) + [RecordConsumer(exchange, ConsumerTag(queue)), QueueBind(queue, exchange, "")]
    {
      ghost var issued := owner.inFlight;
      IssuedBinding(exchange, queueName, queue);
      queueName := queue;
      consumerTag := ConsumerTag(queue);
      owner.registered := owner.registered[exchange := consumerTag];
      owner.IssueStep(RecordConsumer(exchange, consumerTag));
      owner.IssueStep(QueueBind(queueName, exchange, ""));
      assert owner.inFlight == issued + [RecordConsumer(exchange, consumerTag), QueueBind(queueName, exchange, "")];
      phase := Binding;
    }

    /** `_onBind`: start consuming, and only then release the channel lock. */
    method OnBind()
      requires Valid() && phase == Binding
      modifies this`phase, owner`log, owner`steps, owner`lockHeld, owner`holder, owner`completed, owner`inFlight
      ensures Valid() && phase == Consuming && !owner.lockHeld
      ensures owner.log == old(owner.log) + [BasicConsume(queueName, consumerTag)]
      ensures owner.completed == old(owner.completed) + [(exchange, queueName)]
    {
      IssuedAll(exchange, queueName);
      ghost var issued := owner.inFlight;
      assert issued + [BasicConsume(queueName, consumerTag)] == FullHandshake(exchange, queueName);
      owner.IssueStep(BasicConsume(queueName, consumerTag));
      owner.ReleaseLock(exchange, queueName);
      phase := Consuming;
    }

    /** `_onMessage`: acknowledge the delivery, then hand the body to the callback. */
    method OnMessage(deliveryTag: nat, body: string)
      requires Valid() && phase == Consuming
      modifies owner`log, owner`closingSeen
      ensures Valid()
      ensures owner.log == old(owner.log) + [BasicAck(deliveryTag), Deliver(callback, body)]
    {
      owner.Perform(BasicAck(deliveryTag));
      owner.Perform(Deliver(callback, body));
    }
  }

  /** While no handshake holds the channel lock, the handshake steps in the
      log are whole handshakes, one after another, never interleaved. */
  lemma NoHandshakeInterleaves(s: Subscribe)
    requires s.Valid() && !s.lockHeld
    ensures BackToBack(HandshakeTrace(s.log))
  {
    assert Handshakes(s.completed) + s.inFlight == Handshakes(s.completed);
    HandshakesBackToBack(s.completed);
  }

  /** The four steps of a handshake, appended one confirmation at a time, make up the full handshake. */
  lemma StepsMakeFullHandshake(l0: seq<Action>, l1: seq<Action>, l2: seq<Action>, l3: seq<Action>, l4: seq<Action>,
                               exchange: string, queue: string)
    requires l1 == l0 + [ExchangeDeclare(exchange, "fanout")]
    requires l2 == l1 + [QueueDeclare(true)]
    requires l3 == l2 + [RecordConsumer(exchange, ConsumerTag(queue)), QueueBind(queue, exchange, "")]
    requires l4 == l3 + [BasicConsume(queue, ConsumerTag(queue))]
    ensures l4 == l0 + FullHandshake(exchange, queue)
  {
  }

  /** Recording a consumer for an absent exchange and then removing it restores the registry. */
  lemma RecordThenRemove(m: map<string, string>, exchange: string, tag: string)
    requires exchange !in m
    ensures m[exchange := tag] - {exchange} == m
  {
  }

  /** A registration for an inaugurator driven to completion by the broker's
      confirmations: the full handshake is in the log, the registry has gained
      exactly the new consumer tag and the lock is free again. */
  method RegisterInauguratorToCompletion(s: Subscribe, id: string, callback: CallbackId, queue: string)
    returns (h: SubscribeHandshake)
    requires s.Valid() && !s.lockHeld && s.hasChannel
    requires InauguratorExchange(id) !in s.registered
    modifies s
    ensures fresh(h) && h.Valid() && h.phase == Consuming && h.owner == s
    ensures s.Valid() && !s.lockHeld && s.hasChannel
    ensures s.registered == old(s.registered)[InauguratorExchange(id) := ConsumerTag(queue)]
    ensures s.log == old(s.log) + FullHandshake(InauguratorExchange(id), queue)
  {
    ghost var log0 := s.log;
    h := s.RegisterForInaugurator(id, callback);
    var r := h.Acquire();
    ghost var log1 := s.log;
    h.OnExchangeDeclared();
    ghost var log2 := s.log;
    h.OnQueueDeclared(queue);
    ghost var log3 := s.log;
    h.OnBind();
    StepsMakeFullHandshake(log0, log1, log2, log3, s.log, InauguratorExchange(id), queue);
  }

  /** Registering an inaugurator and then unregistering it leaves the
      registry as it was, so a second registration is allowed again. */
  method RegisterThenUnregisterInaugurator(s: Subscribe, id: string, callback: CallbackId, queue: string)
    requires s.Valid() && !s.lockHeld && s.hasChannel
    requires InauguratorExchange(id) !in s.registered
    modifies s
    ensures s.Valid() && !s.lockHeld
    ensures s.registered == old(s.registered)
    ensures s.log == old(s.log) + FullHandshake(InauguratorExchange(id), queue) + [BasicCancel(ConsumerTag(queue))]
  {
    var h := RegisterInauguratorToCompletion(s, id, callback, queue);
    var r := s.UnregisterForInaugurator(id);
    RecordThenRemove(old(s.registered), InauguratorExchange(id), ConsumerTag(queue));
  }

  /** An intended close: the io loop stops and there is no suicide. */
  method CloseThenConnectionClosed(s: Subscribe)
    requires s.Valid() && s.hasChannel
    modifies s
    ensures s.Valid() && s.closed && !s.hasChannel
    ensures s.log == old(s.log) + [CloseChannel, CloseConnection, StopIoLoop]
  {
    var r := s.Close();
    s.OnConnectionClosed();
  }

  /** A channel lost without close(): the connection is closed and the
      process kills itself. */
  method ChannelLossIsFatal(s: Subscribe)
    requires s.Valid() && !s.closed
    modifies s
    ensures s.Valid() && !s.hasChannel
    ensures s.log == old(s.log) + [CloseConnection, Suicide]
  {
    s.OnChannelClosed();
    s.OnConnectionClosed();
  }
}
