# rackattack client: broker subscriptions and allocation handles

This project is a Dafny model of two parts of the TCP client of rackattack.
Rackattack is a service that hands out physical hosts.

- **Subscribe** (`subscribe.dfy`, module `Subscription`) is the client's AMQP
  connection.
  - It keeps a registry from exchange name to consumer tag.
  - It serialises subscription handshakes with one channel lock.
  - It tells an intended connection closure (`close()`, which stops the io
    loop) from an unexpected one (which kills the process).
  - `_Subscribe` is one handshake, modelled as `SubscribeHandshake`. It runs
    exchange_declare → queue_declare → queue_bind → basic_consume, each step
    started by the broker's confirmation of the step before.
  - The model follows these steps through a log of actions. Only two
    methods of `Subscribe` write the log: `IssueStep` for a handshake step
    made under the channel lock, and `Perform` for every other effect.
    `TakeLock` and `ReleaseLock` take and release the lock and add no entry.
  - `IssueStep` sends a `queue_bind` only once the registry holds the bound
    queue's consumer tag, so the registry is written before the bind.
  - `Subscribe.Valid` states the central invariant:
    - the lock is held exactly while one handshake is between taking it and
      issuing basic_consume;
    - the handshake steps in the log are complete handshakes, back to back,
      followed by the steps of the handshake that holds the lock.
- **Allocation** (`allocation.dfy`, module `AllocationLifecycle`) is the handle
  a client holds for one allocation.
  - It subscribes to the allocation's exchange and to one exchange per
    inaugurator. An inaugurator is the worker that provisions a host and
    reports its progress.
  - It asks the provider over IPC whether the allocation is done or dead.
  - It keeps a wait gate, aggregates progress into one percentage and tears
    everything down on free or on provider loss.
  - Its collaborators are one object, `Collaborators`: the IPC client with the
    provider's current answers, the subscribe object's set of held topics, the
    heartbeat, suicide and the user callbacks.
  - Every call the allocation makes on a collaborator is appended to a ghost
    trace, so each operation's contract says which calls it makes, in which
    order.

Python `assert` statements at the start of an operation are that operation's
`requires`. Using a `None` channel raises AttributeError. That case is an
ordinary outcome (`NoChannel`), so the model keeps both paths.

## Model

| member | source | states |
|---|---|---|
| Subscription.InauguratorExchangeInjective | py/rackattack/tcp/subscribe.py:61-62 | distinct inaugurator ids map to distinct `inaugurator_status__<id>` exchanges |
| Subscription.ConsumerTagInjective | py/rackattack/tcp/subscribe.py:117-118 | distinct broker queue names give distinct `<queue>__consumer` tags |
| Subscription.HandshakeTraceOnlySteps | py/rackattack/tcp/subscribe.py:104-123 | every step kept from a log is a handshake action that occurs in the log |
| Subscription.HandshakeTraceAppend | py/rackattack/tcp/subscribe.py:104-123 | the handshake steps of two logs glued together are the steps of each, in order |
| Subscription.HandshakeTraceAppendOther | py/rackattack/tcp/subscribe.py:56-59 | a non-handshake action (cancel, ack, close, ...) leaves the handshake trace unchanged |
| Subscription.HandshakeTraceAppendStep | py/rackattack/tcp/subscribe.py:104-123 | a handshake action extends the handshake trace by exactly itself |
| Subscription.BackToBackAppend | py/rackattack/tcp/subscribe.py:104-114 | a run of complete handshakes followed by another such run is one such run |
| Subscription.BackToBackBlock | py/rackattack/tcp/subscribe.py:104-114 | in a run of complete handshakes, every aligned block of five steps is the full handshake of one exchange and queue |
| Subscription.BackToBackLength | py/rackattack/tcp/subscribe.py:104-114 | such a run has a length divisible by five |
| Subscription.HandshakesBackToBack | py/rackattack/tcp/subscribe.py:104-123 | the steps of the completed handshakes, in order, are complete handshakes back to back |
| Subscription.NoClosingAppend | py/rackattack/tcp/subscribe.py:46-71 | a log has no closing action after one more entry iff it had none before and the entry is neither the channel close nor the io loop stop |
| Subscription.NoClosingMeans | py/rackattack/tcp/subscribe.py:46-71 | a log has no closing action iff neither the channel close nor the io loop stop occurs in it |
| Subscription.Subscribe.constructor | py/rackattack/tcp/subscribe.py:12-22 | empty registry, no channel, lock free, not ready, not closed |
| Subscription.Subscribe.RegisterToExchange | py/rackattack/tcp/subscribe.py:52-54 | requires the exchange unregistered; creates a handshake waiting for the lock, with the channel as it is at the call |
| Subscription.Subscribe.RegisterForInaugurator | py/rackattack/tcp/subscribe.py:24-26 | as RegisterToExchange for `inaugurator_status__<id>` |
| Subscription.Subscribe.RegisterForAllocation | py/rackattack/tcp/subscribe.py:32-34 | as RegisterToExchange for the allocation's exchange |
| Subscription.Subscribe.RegisterForAllAllocations | py/rackattack/tcp/subscribe.py:40-41 | as RegisterToExchange for the all-allocations exchange |
| Subscription.Subscribe.UnregisterFromExchange | py/rackattack/tcp/subscribe.py:56-59 | requires the exchange registered; cancels its recorded consumer and removes exactly that entry, or changes nothing without a channel |
| Subscription.Subscribe.UnregisterForInaugurator | py/rackattack/tcp/subscribe.py:28-30 | as UnregisterFromExchange for the inaugurator's exchange |
| Subscription.Subscribe.UnregisterForAllocation | py/rackattack/tcp/subscribe.py:36-38 | as UnregisterFromExchange for the allocation's exchange |
| Subscription.Subscribe.UnregisterForAllAllocations | py/rackattack/tcp/subscribe.py:43-44 | as UnregisterFromExchange for the all-allocations exchange |
| Subscription.Subscribe.Close | py/rackattack/tcp/subscribe.py:46-50 | marks the closure intended before anything else, then closes channel and connection; without a channel only the mark is made |
| Subscription.Subscribe.OnConnectionClosed | py/rackattack/tcp/subscribe.py:64-71 | drops the channel; stops the io loop after close(), commits suicide otherwise |
| Subscription.Subscribe.OnConnectionOpen | py/rackattack/tcp/subscribe.py:73-76 | opens a channel |
| Subscription.Subscribe.OnChannelClosed | py/rackattack/tcp/subscribe.py:78-81 | escalates the lost channel to closing the connection |
| Subscription.Subscribe.OnChannelOpen | py/rackattack/tcp/subscribe.py:83-86 | installs the channel and sets the ready event |
| Subscription.Subscribe.TakeLock | py/rackattack/tcp/subscribe.py:104 | `_channelLock.acquire()`: the lock, free before, is held by the calling handshake, with no step in flight yet |
| Subscription.Subscribe.IssueStep | py/rackattack/tcp/subscribe.py:105-123 | a handshake step on the channel, made only while the lock is held, and a bind only once the registry maps the exchange to the bound queue's consumer tag: appended to the log and to the holder's steps in flight |
| Subscription.Subscribe.ReleaseLock | py/rackattack/tcp/subscribe.py:112-113 | `_channelLock.release()`, allowed only once the holder has issued its full handshake: the lock is free and the completed handshakes grow by that one |
| Subscription.Subscribe.Perform | py/rackattack/tcp/subscribe.py:46-109 | any other effect is appended to the log and leaves the handshake steps alone; before close() it may not close the channel or stop the io loop |
| Subscription.SubscribeHandshake.constructor | py/rackattack/tcp/subscribe.py:98-103 | a handshake bound to its owner, exchange, callback and the channel handed over |
| Subscription.SubscribeHandshake.Acquire | py/rackattack/tcp/subscribe.py:104-105 | takes the lock and declares a fanout exchange; on a None channel the lock stays held for good |
| Subscription.SubscribeHandshake.OnExchangeDeclared | py/rackattack/tcp/subscribe.py:122-123 | declares an exclusive queue, still holding the lock |
| Subscription.SubscribeHandshake.OnQueueDeclared | py/rackattack/tcp/subscribe.py:116-120 | records `<queue>__consumer` for the exchange in the registry, and only then binds with routing key '' (the bind step requires the entry) |
| Subscription.SubscribeHandshake.OnBind | py/rackattack/tcp/subscribe.py:111-114 | starts consuming and only then releases the lock; the completed handshakes grow by this one, with the exchange and the queue it bound |
| Subscription.SubscribeHandshake.OnMessage | py/rackattack/tcp/subscribe.py:107-109 | acknowledges each delivery before handing its body to the callback |
| Subscription.NoHandshakeInterleaves | py/rackattack/tcp/subscribe.py:104-114 | whenever the lock is free, the handshake steps in the log are complete handshakes back to back: no two handshakes ever interleave on the channel |
| Subscription.RegisterInauguratorToCompletion | py/rackattack/tcp/subscribe.py:24-26 | a registration that the broker confirms throughout logs the full handshake, gains exactly one registry entry and frees the lock |
| Subscription.RegisterThenUnregisterInaugurator | py/rackattack/tcp/subscribe.py:28-30 | register then unregister restores the registry and cancels the consumer that was recorded |
| Subscription.CloseThenConnectionClosed | py/rackattack/tcp/subscribe.py:46-71 | an intended close ends with the io loop stopped and no suicide |
| Subscription.ChannelLossIsFatal | py/rackattack/tcp/subscribe.py:64-81 | a channel lost without close() ends in closing the connection and suicide |
| AllocationLifecycle.SumRemove | py/rackattack/tcp/allocation.py:122-125 | the sum of the stored percents does not depend on the order of summation |
| AllocationLifecycle.SumBounds | py/rackattack/tcp/allocation.py:122-125 | percents in 0..100 sum to at most 100 per worker |
| AllocationLifecycle.OverallPercent | py/rackattack/tcp/allocation.py:122-125 | 0 with no worker; within 0..100 whenever every stored percent is |
| AllocationLifecycle.SumUpdate | py/rackattack/tcp/allocation.py:116 | storing a worker's percent replaces that worker's share of the sum |
| AllocationLifecycle.ProgressScenario | py/rackattack/tcp/allocation.py:111-125 | {w1: 50} gives 50 overall; adding w2 at 100 gives 75 |
| AllocationLifecycle.NewInaugurators | py/rackattack/tcp/allocation.py:127-133 | the ids registered on a re-fetch are none of the previous ids, and with the previous ones they cover every fetched id |
| AllocationLifecycle.FirstFetchAgrees | py/rackattack/tcp/allocation.py:19-22 | on the constructor's first fetch both membership tests register every fetched id |
| AllocationLifecycle.RefetchAsWrittenReregisters | py/rackattack/tcp/allocation.py:131 | with the code as written, re-fetching an unchanged map re-registers a known worker |
| AllocationLifecycle.RefetchScenario | py/rackattack/tcp/allocation.py:127-133 | re-fetching {w1} then {w1, w2} registers only w2 |
| AllocationLifecycle.Allocation.constructor | py/rackattack/tcp/allocation.py:9-26 | registers the allocation topic, then every inaugurator topic once, then the heartbeat; the gate is open iff dead (truthy) or done |
| AllocationLifecycle.Allocation.RegisterProgressCallback | py/rackattack/tcp/allocation.py:32-34 | requires no callback set; sets the given one, None included, so registering None still allows a later registration |
| AllocationLifecycle.Allocation.SetForceReleaseCallback | py/rackattack/tcp/allocation.py:87-88 | replaces the force-release callback, None included |
| AllocationLifecycle.Allocation.Done | py/rackattack/tcp/allocation.py:36-38 | requires a live handle; one `allocation__done` call, its answer returned |
| AllocationLifecycle.Allocation.Dead | py/rackattack/tcp/allocation.py:40-45 | a truthy cached reason is returned with no IPC call; otherwise the provider's answer is cached and returned |
| AllocationLifecycle.Allocation.Wait | py/rackattack/tcp/allocation.py:47-53 | a closed gate times out; otherwise any reason other than None (even an empty one) is raised |
| AllocationLifecycle.Allocation.Nodes | py/rackattack/tcp/allocation.py:55-64 | requires live and done; one node per allocated name, bound to this allocation, with that name's info |
| AllocationLifecycle.Allocation.Free | py/rackattack/tcp/allocation.py:73-77 | frees on the provider, records "freed", then tears down |
| AllocationLifecycle.Allocation.Close | py/rackattack/tcp/allocation.py:79-85 | heartbeat off, each inaugurator topic unregistered once, allocation topic off, IPC told, gate opened; a second teardown is refused |
| AllocationLifecycle.Allocation.ConnectionToProviderInterrupted | py/rackattack/tcp/allocation.py:90-92 | records "connection to provider terminated" and tears down without an IPC call |
| AllocationLifecycle.Allocation.AllocationEventBroadcasted | py/rackattack/tcp/allocation.py:94-109 | changedState opens the gate; withdrawn calls the force-release callback, or commits suicide without one; nothing else acts |
| AllocationLifecycle.Allocation.InauguratorEventBroadcasted | py/rackattack/tcp/allocation.py:111-120 | a progress event stores the worker's percent; any event reaches a set callback with the new overall percent; percents stay in range |
| AllocationLifecycle.Allocation.UnregisterInaugurators | py/rackattack/tcp/allocation.py:81-82 | each id's topic is unregistered exactly once |
| AllocationLifecycle.Allocation.RegisterInaugurators | py/rackattack/tcp/allocation.py:130-133 | each id's topic is registered exactly once |
| AllocationLifecycle.Allocation.RefetchInauguratorIDs | py/rackattack/tcp/allocation.py:127-133 | replaces the map with the provider's and registers each new id once; every topic of the handle stays registered |
| AllocationLifecycle.FreeThenDead | py/rackattack/tcp/allocation.py:40-45 | after free(), dead() answers "freed" without an IPC call, and teardown cannot run again |
| AllocationLifecycle.WaitAfterConstruction | py/rackattack/tcp/allocation.py:24-25 | a handle that is dead or done at construction does not time out on wait |
| AllocationLifecycle.TwoWorkersReportProgress | py/rackattack/tcp/allocation.py:111-125 | two workers at 50 and 100 percent reach the callback as 50 and then 75 overall |

Helper lemmas, which unfold definitions or do sequence and map algebra for the
members above, have no rows: `Subscription.IssuedStepsPrefix`,
`Subscription.HandshakesAppend`, `Subscription.StepsMakeFullHandshake`,
`Subscription.RecordThenRemove` and `AllocationLifecycle.OncePerIdAppend`,
among others.

## Left out

- The pika library, the broker, the io loop and the background thread of `Subscribe.run` (subscribe.py:88-94) are not modelled. Broker confirmations, deliveries and closure notifications are method calls, and the model's effects are entries in `Subscribe.log`.
- Subscription.Subscribe.constructor: the connection that `run` creates is taken as already present, and the amqp URL is not kept.
- Lock blocking and thread interleavings are not modelled. `Acquire` requires the lock to be free, which stands for the wait in `acquire()`.
- Subscription.Subscribe.RegisterToExchange: the registry check happens at call time, before the lock is taken, as in the source. Two registrations of one exchange that both pass the check before the first reaches `OnQueueDeclared` are allowed; the second overwrites the first's registry entry.
- `publish.Publish` is not part of this model. The allocation exchange name is a function parameter and the all-allocations exchange name is a constant parameter.
- The `AllocationLifecycle.Topic` datatype: an allocation topic and an inaugurator topic are different values, and allocation topics for different ids are different. So the model assumes that `publish.Publish.allocationExchange` is injective and never yields an `inaugurator_status__...` name. In `Subscription` the same name is an arbitrary function parameter with no such assumption.
- Subscription.SubscribeHandshake.OnMessage: the JSON decoding of the body (simplejson) is not modelled; the body is passed on as a string.
- Logging is left out everywhere.
- `suicide.killSelf` ends the process; in the model it is only an entry in the log or trace.
- Remote IPC calls never fail in the model. A provider exception would propagate out of the operation unchanged.
- `fetchPostMortemPack` (allocation.py:66-71) is left out: it is plain HTTP I/O with no state of the handle involved.
- `_idForNodeIPC` (allocation.py:28-30) is left out: it is used only by node.py, which is not part of this model.
- `requirements`, passed to the constructor and never read in this file, is not kept.
- `node.Node` is not part of this model. A node is the record of its allocation, name and info.
- The subscribe object as the allocation sees it is the set of topics it holds. Its register and unregister calls carry the source's asserts as `requires`. It is not connected to the `Subscription` module's class. So the model does not capture two things: every registration after the first blocks in `_channelLock.acquire()` (subscribe.py:104) until the previous handshake releases the lock in `_onBind` (subscribe.py:113); and a topic joins `subscribed` at once, while the source's registry gains the entry only at `_onQueueDeclared` (subscribe.py:119).
- AllocationLifecycle.OverallPercent: percents are integers and `/` is Python 2 integer division. A float percent from an inaugurator is not modelled.
- AllocationLifecycle.Allocation.Wait: waiting without a timeout blocks until the gate opens, and the model describes only the moment the wait ends. It says nothing about how long the wait takes.
- AllocationLifecycle.Allocation.RefetchInauguratorIDs: it registers `NewInaugurators`, the fetched ids that are not among the previous ids. That is the corrected test, not the test on the previous map's labels at allocation.py:131 (see Findings). The two agree at the only call in the file, the constructor's first fetch (`FirstFetchAgrees`), and differ on a later fetch with a non-empty previous map.
- AllocationLifecycle.Allocation.RefetchInauguratorIDs: ids are a set. Two labels that list the same worker id in one fetch register it once. The source would start two handshakes for it. The registry assert (subscribe.py:53) normally passes for the second, because the first writes its entry only at subscribe.py:119, so the second overwrites the first's tag. The assertion fails later, at `_close`'s second unregister (subscribe.py:57).
- AllocationLifecycle.Allocation.Close: it requires distinct ids in the map, because the source would unregister a repeated id twice and fail the assertion.
- `_inauguratorsIDs` starting as an empty list (allocation.py:19) is an empty map. Membership tests behave the same for both, and the constructor always replaces the value before any other use.

## Findings

| source | as written | input that shows it | evidently intended | confidence | as-written member | corrected member |
|---|---|---|---|---|---|---|
| py/rackattack/tcp/allocation.py:131 | `if id not in previous` tests a worker id against the keys (node names) of the previous label-to-id map | a second fetch returning the unchanged map {"node0": "w1"}: "w1" is not a key, so w1 is registered again and `_registerToExchange` fails its assertion (subscribe.py:53). The only call in this file is the constructor's first fetch, where both tests agree (FirstFetchAgrees), so the defect is latent there | test against the previous ids, `previous.values()` | not executed | AllocationLifecycle.RefetchAsWrittenReregisters | AllocationLifecycle.NewInaugurators |
