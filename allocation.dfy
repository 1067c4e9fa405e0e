/**
 * The allocation handle of the rackattack client (py/rackattack/tcp/allocation.py).
 *
 * An Allocation follows one allocation on the provider: it subscribes to the
 * allocation's topic and to one topic per inaugurator (a worker that reports
 * provisioning progress), asks the provider over IPC whether the allocation
 * is done or dead, keeps a wait gate that `wait` blocks on, aggregates the
 * inaugurators' progress and tears its subscriptions down when freed.
 *
 * Its collaborators are one object, Collaborators: the provider's answers to
 * the IPC calls as they would be now, the set of topics the subscribe object
 * holds, and a ghost trace of every call the allocation makes on any of
 * them, in order.
 */
module AllocationLifecycle {
  import opened Common

  /** A topic of the subscribe object, by what it is about. */
  datatype Topic = AllocationTopic(allocation: string) | InauguratorTopic(inaugurator: string)

  function InauguratorTopics(ids: set<string>): set<Topic>
  {
    set w | w in ids :: InauguratorTopic(w)
  }

  /** The IPC calls, each with the allocation id it passes. */
  datatype Remote =
    | AllocationDone(id: string)
    | AllocationDead(id: string)
    | AllocationNodes(id: string)
    | AllocationFree(id: string)
    | AllocationInauguratorsIDs(id: string)

  /** The parsed body of a message on the allocation's topic, by its 'event' field. */
  datatype AllocationEvent = ChangedState | ProviderMessage(message: string) | Withdrawn(message: string) | OtherEvent

  /** The parsed body of a message on an inaugurator's topic, by its 'status' field. */
  datatype InauguratorEvent = Progress(id: string, percent: int) | OtherStatus(id: string, status: string)

  /** One call the allocation makes on a collaborator. */
  datatype Effect =
    | RemoteCall(call: Remote)
    | Register(topic: Topic)
    | Unregister(topic: Topic)
    | HeartbeatRegister(allocation: string)
    | HeartbeatUnregister(allocation: string)
    | AllocationClosed(allocation: string)
    | Suicide
    | ProgressCallback(callback: CallbackId, overallPercent: int, event: InauguratorEvent)
    | ForceReleaseCallback(callback: CallbackId)

  /** How `wait` ends: it returns, or raises the timeout or the death reason. */
  datatype WaitResult = Released | TimedOut | Died(reason: string)

  /** A node handle as `nodes()` builds it; the Node class itself is not modelled. */
  datatype Node = Node(allocation: string, name: string, info: string)

  /** Python truthiness of `_dead`: None and the empty string are false. */
  predicate Truthy(dead: Option<string>)
  {
    dead.Some? && dead.value != ""
  }

  /** The things `dead()` reports, with `cached` the value of `_dead` before
      the call and `served` what `allocation__dead` would return. */
  function DeathReport(cached: Option<string>, served: Option<string>): Option<string>
  {
    if Truthy(cached) then cached else served
  }

  // ---------------------------------------------------------------------
  // Progress aggregation
  // ---------------------------------------------------------------------

  ghost function Sum(m: map<string, int>): int
    decreases |m|
  {
    if m == map[] then 0
    else
      var k :| k in m;
      assert |m - {k}| < |m| by { assert (m - {k}).Keys == m.Keys - {k}; }
      m[k] + Sum(m - {k})
  }

  /** Sum does not depend on which key it takes first. */
  lemma {:induction false} SumRemove(m: map<string, int>, k: string)
    requires k in m
    ensures Sum(m) == m[k] + Sum(m - {k})
    decreases |m|
  {
    var j :| j in m && Sum(m) == m[j] + Sum(m - {j});
    if j != k {
      assert (m - {j}).Keys == m.Keys - {j};
      assert (m - {k}).Keys == m.Keys - {k};
      SumRemove(m - {j}, k);
      SumRemove(m - {k}, j);
      assert m - {j} - {k} == m - {k} - {j};
    }
  }

  ghost predicate AllPercents(m: map<string, int>)
  {
    forall k | k in m :: 0 <= m[k] <= 100
  }

  lemma {:induction false} SumBounds(m: map<string, int>)
    ensures AllPercents(m) ==> 0 <= Sum(m) <= 100 * |m|
    decreases |m|
  {
    if m != map[] {
      var k :| k in m;
      assert (m - {k}).Keys == m.Keys - {k};
      SumRemove(m, k);
      SumBounds(m - {k});
    }
  }

  /** `_overallPercent`: the mean of the stored percents, 0 for no inaugurator.
      Python 2 divides integers by flooring, which for a positive count is
      Dafny's division. */
  ghost function OverallPercent(progress: map<string, int>): (r: int)
    ensures progress == map[] ==> r == 0
    ensures AllPercents(progress) ==> 0 <= r <= 100
  {
    if |progress| == 0 then 0
    else
      SumBounds(progress);
      Sum(progress) / |progress|
  }

  /** Storing a percent for a worker replaces that worker's share of the sum. */
  lemma SumUpdate(m: map<string, int>, k: string, v: int)
    ensures Sum(m[k := v]) == Sum(m) - (if k in m then m[k] else 0) + v
  {
    SumRemove(m[k := v], k);
    assert m[k := v] - {k} == m - {k};
    if k in m {
      SumRemove(m, k);
    } else {
      assert m - {k} == m;
    }
  }

  /** One worker at 50 percent reports 50; a second at 100 percent makes it 75. */
  lemma ProgressScenario()
    ensures OverallPercent(map["w1" := 50]) == 50
    ensures OverallPercent(map["w1" := 50, "w2" := 100]) == 75
  {
    var one := map["w1" := 50];
    SumRemove(one, "w1");
    assert one - {"w1"} == map[];
    var two := one["w2" := 100];
    SumUpdate(one, "w2", 100);
    assert |two| == 2;
  }

  // ---------------------------------------------------------------------
  // Inaugurator discovery
  // ---------------------------------------------------------------------

  /** The ids `_refetchInauguratorIDs` registers as written: `id not in
      previous` looks at the keys of the previous label-to-id map. */
  function NewInauguratorsAsWritten(previous: map<string, string>, fetched: map<string, string>): set<string>
  {
    set node | node in fetched && fetched[node] !in previous :: fetched[node]
  }

  /** The ids it means to register: the fetched ids not among the previous ids. */
  function NewInaugurators(previous: map<string, string>, fetched: map<string, string>): (ids: set<string>)
    ensures ids !! previous.Values
    ensures previous.Values + ids == previous.Values + fetched.Values
  {
    fetched.Values - previous.Values
  }

  /** On the first fetch (done by the constructor, against an empty
      collection) both tests register every fetched id. */
  lemma FirstFetchAgrees(fetched: map<string, string>)
    ensures NewInauguratorsAsWritten(map[], fetched) == fetched.Values == NewInaugurators(map[], fetched)
  {
    forall w | w in fetched.Values
      ensures w in NewInauguratorsAsWritten(map[], fetched)
    {
      var node :| node in fetched && fetched[node] == w;
    }
  }

  /** A re-fetch that returns the same label-to-id map makes the code as
      written register a worker id that is already registered, which fails
      the registration's assertion; the intended test registers nothing. */
  lemma RefetchAsWrittenReregisters()
    ensures "w1" in map["node0" := "w1"].Values
    ensures "w1" in NewInauguratorsAsWritten(map["node0" := "w1"], map["node0" := "w1"])
    ensures NewInaugurators(map["node0" := "w1"], map["node0" := "w1"]) == {}
  {
    var previous := map["node0" := "w1"];
    assert previous["node0"] == "w1";
    assert "w1" !in previous;
  }

  /** Re-fetching {w1} then {w1, w2} registers only w2 under the intended test. */
  lemma RefetchScenario()
    ensures NewInaugurators(map["node0" := "w1"], map["node0" := "w1", "node1" := "w2"]) == {"w2"}
  {
    var fetched := map["node0" := "w1", "node1" := "w2"];
    assert "w1" in fetched.Values by { assert fetched["node0"] == "w1"; }
    assert "w2" in fetched.Values by { assert fetched["node1"] == "w2"; }
    forall w | w in fetched.Values
      ensures w == "w1" || w == "w2"
    {
      var node :| node in fetched && fetched[node] == w;
    }
    assert fetched.Values == {"w1", "w2"};
  }

  lemma InauguratorTopicsAdd(ids: set<string>, w: string)
    ensures InauguratorTopics(ids + {w}) == InauguratorTopics(ids) + {InauguratorTopic(w)}
  {
  }

  /** Registered inaugurators stay registered when the map is replaced, and
      the ones the replacement adds are exactly the new ids. */
  lemma InauguratorTopicsCovered(previous: set<string>, fetched: set<string>, subscribed: set<Topic>)
    requires InauguratorTopics(previous) <= subscribed
    ensures InauguratorTopics(fetched) <= subscribed + InauguratorTopics(fetched - previous)
  {
  }

  /** Distinct labels carry distinct ids. */
  ghost predicate Injective(m: map<string, string>)
  {
    forall a, b | a in m && b in m && a != b :: m[a] != m[b]
  }

  /** `s` is one registration (or one unregistration) of an inaugurator topic
      per id in `ids`, in some order, and nothing else. */
  ghost predicate OncePerId(s: seq<Effect>, ids: set<string>, register: bool)
  {
    && |s| == |ids|
    && (forall i | 0 <= i < |s| ::
          (if register then s[i].Register? else s[i].Unregister?)
          && s[i].topic.InauguratorTopic? && s[i].topic.inaugurator in ids)
    && (forall i, j | 0 <= i < j < |s| :: s[i] != s[j])
  }

  function TopicCall(w: string, register: bool): Effect
  {
    if register then Register(InauguratorTopic(w)) else Unregister(InauguratorTopic(w))
  }

  lemma OncePerIdAppend(s: seq<Effect>, ids: set<string>, w: string, register: bool)
    requires OncePerId(s, ids, register) && w !in ids
    ensures OncePerId(s + [TopicCall(w, register)], ids + {w}, register)
  {
    var t := s + [TopicCall(w, register)];
    forall i, j | 0 <= i < j < |t|
      ensures t[i] != t[j]
    {
      if j == |s| {
        assert t[i].topic.inaugurator in ids;
      }
    }
  }

  /** The calls `__init__` makes, in order, with `dead` whether the first
      `dead()` already reports a truthy reason. */
  ghost function ConstructionTrace(id: string, registrations: seq<Effect>, dead: bool): seq<Effect>
  {
    [Register(AllocationTopic(id)), RemoteCall(AllocationInauguratorsIDs(id))]
    + registrations
    + [HeartbeatRegister(id), RemoteCall(AllocationDead(id))]
    + (if dead then [] else [RemoteCall(AllocationDone(id))])
  }

  lemma ConstructionTraceOf(t0: seq<Effect>, t1: seq<Effect>, t2: seq<Effect>, t3: seq<Effect>, t4: seq<Effect>,
                            id: string, registrations: seq<Effect>, dead: bool)
    requires t1 == t0 + [Register(AllocationTopic(id))]
    requires t2 == t1 + [RemoteCall(AllocationInauguratorsIDs(id))] + registrations
    requires t3 == t2 + [HeartbeatRegister(id)]
    requires t4 == t3 + [RemoteCall(AllocationDead(id))] + (if dead then [] else [RemoteCall(AllocationDone(id))])
    ensures t4 == t0 + ConstructionTrace(id, registrations, dead)
  {
  }

  // ---------------------------------------------------------------------
  // Collaborators
  // ---------------------------------------------------------------------

  /** The IPC client and the provider behind it, the subscribe object, the
      heartbeat, the suicide module and the registered callbacks, as far as
      the allocation sees them. The service fields may change between calls. */
  class Collaborators {
    var serviceDone: bool
    var serviceDead: Option<string>
    var serviceInaugurators: map<string, string>
    var serviceNodes: map<string, string>
    /** The topics the subscribe object holds a registration for. */
    var subscribed: set<Topic>
    ghost var trace: seq<Effect>

    constructor (done: bool, dead: Option<string>, inaugurators: map<string, string>,
                 nodes: map<string, string>, subscribed: set<Topic>)
      ensures serviceDone == done && serviceDead == dead
      ensures serviceInaugurators == inaugurators && serviceNodes == nodes
      ensures this.subscribed == subscribed && trace == []
    {
      serviceDone := done;
      serviceDead := dead;
      serviceInaugurators := inaugurators;
      serviceNodes := nodes;
      this.subscribed := subscribed;
      trace := [];
    }

    /** `ipcClient.call`; the answer is read from the service fields. */
    method Call(c: Remote)
      modifies this`trace
      ensures trace == old(trace) + [RemoteCall(c)]
    {
      trace := trace + [RemoteCall(c)];
    }

    /** A register call of the subscribe object, which asserts the topic is absent. */
    method RegisterTopic(t: Topic)
      requires t !in subscribed
      modifies this`subscribed, this`trace
      ensures subscribed == old(subscribed) + {t} && trace == old(trace) + [Register(t)]
    {
      subscribed := subscribed + {t};
      trace := trace + [Register(t)];
    }

    /** An unregister call of the subscribe object, which asserts the topic is present. */
    method UnregisterTopic(t: Topic)
      requires t in subscribed
      modifies this`subscribed, this`trace
      ensures subscribed == old(subscribed) - {t} && trace == old(trace) + [Unregister(t)]
    {
      subscribed := subscribed - {t};
      trace := trace + [Unregister(t)];
    }

    method RegisterHeartbeat(id: string)
      modifies this`trace
      ensures trace == old(trace) + [HeartbeatRegister(id)]
    {
      trace := trace + [HeartbeatRegister(id)];
    }

    method UnregisterHeartbeat(id: string)
      modifies this`trace
      ensures trace == old(trace) + [HeartbeatUnregister(id)]
    {
      trace := trace + [HeartbeatUnregister(id)];
    }

    /** `ipcClient.allocationClosed`. */
    method NotifyAllocationClosed(id: string)
      modifies this`trace
      ensures trace == old(trace) + [AllocationClosed(id)]
    {
      trace := trace + [AllocationClosed(id)];
    }

    /** `suicide.killSelf`. */
    method KillSelf()
      modifies this`trace
      ensures trace == old(trace) + [Suicide]
    {
      trace := trace + [Suicide];
    }

    method CallForceRelease(callback: CallbackId)
      modifies this`trace
      ensures trace == old(trace) + [ForceReleaseCallback(callback)]
    {
      trace := trace + [ForceReleaseCallback(callback)];
    }

    method CallProgress(callback: CallbackId, ghost overallPercent: int, event: InauguratorEvent)
      modifies this`trace
      ensures trace == old(trace) + [ProgressCallback(callback, overallPercent, event)]
    {
      trace := trace + [ProgressCallback(callback, overallPercent, event)];
    }
  }

  // ---------------------------------------------------------------------
  // The allocation
  // ---------------------------------------------------------------------

  class Allocation {
    const id: string
    const env: Collaborators
    /** `_forceReleaseCallback`. */
    var forceReleaseCallback: Option<CallbackId>
    /** `_dead`: None, or the reason the allocation ended. */
    var dead: Option<string>
    /** `_progressCallback`. */
    var progressCallback: Option<CallbackId>
    /** `_progressPercent`: inaugurator id to its last reported percent. */
    var progressPercent: map<string, int>
    /** `_inauguratorsIDs`: label to inaugurator id, as last fetched. */
    var inauguratorsIDs: map<string, string>
    /** `_waitEvent` is set. */
    var waitGate: bool
    /** `_close` has run. */
    ghost var closedDown: bool

    /** The topics this allocation registered and has not unregistered. */
    ghost function Topics(): set<Topic>
      reads this`inauguratorsIDs
    {
      {AllocationTopic(id)} + InauguratorTopics(inauguratorsIDs.Values)
    }

    /** Until teardown every topic of the allocation is registered; after it
        the wait gate is open and the allocation's own topic is gone. */
    ghost predicate Valid()
      reads this`inauguratorsIDs, this`waitGate, this`closedDown, env`subscribed
    {
      && (!closedDown ==> Topics() <= env.subscribed)
      && (closedDown ==> waitGate && AllocationTopic(id) !in env.subscribed)
    }

    /** What `_close` asserts through the subscribe object: every topic it
        is about to unregister is registered, and no id is listed twice
        (a repeated id would be unregistered twice). */
    ghost predicate CanClose()
      reads this`inauguratorsIDs, env`subscribed
    {
      && AllocationTopic(id) in env.subscribed
      && InauguratorTopics(inauguratorsIDs.Values) <= env.subscribed
      && Injective(inauguratorsIDs)
    }

    /** `__init__`: subscribe to the allocation, discover and subscribe to its
        inaugurators, register the heartbeat, and open the wait gate at once
        if the allocation is already dead or done. */
    constructor (id: string, env: Collaborators)
      requires AllocationTopic(id) !in env.subscribed
      requires InauguratorTopics(env.serviceInaugurators.Values) !! env.subscribed
      modifies env`subscribed, env`trace
      ensures Valid() && !closedDown
      ensures this.id == id && this.env == env
      ensures forceReleaseCallback == None && progressCallback == None && progressPercent == map[]
      ensures inauguratorsIDs == env.serviceInaugurators
      ensures dead == env.serviceDead
      ensures waitGate == (Truthy(env.serviceDead) || env.serviceDone)
      ensures env.subscribed == old(env.subscribed) + {AllocationTopic(id)} + InauguratorTopics(env.serviceInaugurators.Values)
      ensures exists registrations | OncePerId(registrations, env.serviceInaugurators.Values, true) ::
        env.trace == old(env.trace) + ConstructionTrace(id, registrations, Truthy(env.serviceDead))
    {
      this.id := id;
      this.env := env;
      forceReleaseCallback := None;
      dead := None;
      progressCallback := None;
      progressPercent := map[];
      inauguratorsIDs := map[];
      waitGate := false;
      closedDown := false;
      new;
      ghost var t0 := env.trace;
      env.RegisterTopic(AllocationTopic(id));
      ghost var t1 := env.trace;
      ghost var registrations := RefetchInauguratorIDs();
      ghost var t2 := env.trace;
      env.RegisterHeartbeat(id);
      ghost var t3 := env.trace;
      var death := Dead();
      if Truthy(death) {
        waitGate := true;
      } else {
        var done := Done();
        if done {
          waitGate := true;
        }
      }
      ConstructionTraceOf(t0, t1, t2, t3, env.trace, id, registrations, Truthy(env.serviceDead));
    }

    /** `registerProgressCallback`: allowed only while no callback is set; passing None
        leaves none set, so a later registration is still allowed. */
    method RegisterProgressCallback(callback: Option<CallbackId>)
      requires progressCallback == None
      modifies this`progressCallback
      ensures progressCallback == callback
    {
      progressCallback := callback;
    }

    /** `setForceReleaseCallback`: replaces whatever was set, None included. */
    method SetForceReleaseCallback(callback: Option<CallbackId>)
      modifies this`forceReleaseCallback
      ensures forceReleaseCallback == callback
    {
      forceReleaseCallback := callback;
    }

    /** `done`: asks the provider every time; not allowed once the allocation has ended. */
    method Done() returns (r: bool)
      requires !Truthy(dead)
      modifies env`trace
      ensures r == env.serviceDone
      ensures env.trace == old(env.trace) + [RemoteCall(AllocationDone(id))]
    {
      env.Call(AllocationDone(id));
      r := env.serviceDone;
    }

    /** `dead`: a truthy reason is answered from the cache with no IPC call;
        otherwise the provider is asked and its answer cached. */
    method Dead() returns (r: Option<string>)
      modifies this`dead, env`trace
      ensures r == DeathReport(old(dead), env.serviceDead) && dead == r
      ensures Truthy(old(dead)) ==> env.trace == old(env.trace)
      ensures !Truthy(old(dead)) ==> env.trace == old(env.trace) + [RemoteCall(AllocationDead(id))]
      ensures Truthy(old(dead)) ==> Truthy(dead)
    {
      if Truthy(dead) {
        return dead;
      }
      env.Call(AllocationDead(id));
      dead := env.serviceDead;
      r := dead;
    }

    /** `wait`, at the moment the wait ends: a gate still closed is the timeout;
        otherwise a death reported by `dead()` (None is the only non-death, so
        an empty reason is raised too) is raised. */
    method Wait() returns (r: WaitResult)
      modifies this`dead, env`trace
      ensures !waitGate ==> r == TimedOut && dead == old(dead) && env.trace == old(env.trace)
      ensures waitGate ==> dead == DeathReport(old(dead), env.serviceDead)
      ensures waitGate ==> r == (if dead.Some? then Died(dead.value) else Released)
      ensures waitGate && Truthy(old(dead)) ==> env.trace == old(env.trace)
      ensures waitGate && !Truthy(old(dead)) ==> env.trace == old(env.trace) + [RemoteCall(AllocationDead(id))]
    {
      if !waitGate {
        return TimedOut;
      }
      var death := Dead();
      if death.Some? {
        return Died(death.value);
      }
      r := Released;
    }

    /** `nodes`: requires a live allocation that the provider reports done,
        then builds one node handle per served name. */
    method Nodes() returns (nodes: map<string, Node>)
      requires !Truthy(dead) && env.serviceDone
      modifies env`trace
      ensures nodes.Keys == env.serviceNodes.Keys
      ensures forall name | name in nodes :: nodes[name] == Node(id, name, env.serviceNodes[name])
      ensures env.trace == old(env.trace) + [RemoteCall(AllocationDone(id)), RemoteCall(AllocationNodes(id))]
    {
      var done := Done();
      assert done;
      env.Call(AllocationNodes(id));
      var served := env.serviceNodes;
      nodes := map[];
      var names := served.Keys;
      while names != {}
        invariant names <= served.Keys
        invariant nodes.Keys == served.Keys - names
        invariant forall name | name in nodes :: nodes[name] == Node(id, name, served[name])
        decreases |names|
      {
        var name :| name in names;
        nodes := nodes[name := Node(id, name, served[name])];
        names := names - {name};
      }
    }

    /** `free`: release on the provider, record "freed", tear down. */
    method Free() returns (ghost unsubscribed: seq<Effect>)
      requires Valid() && CanClose()
      modifies this`dead, this`waitGate, this`closedDown, env`subscribed, env`trace
      ensures Valid() && closedDown && waitGate && dead == Some("freed")
      ensures env.subscribed == old(env.subscribed) - old(Topics())
      ensures !CanClose()
      ensures OncePerId(unsubscribed, inauguratorsIDs.Values, false)
      ensures env.trace == old(env.trace) + [RemoteCall(AllocationFree(id)), HeartbeatUnregister(id)]
                           + unsubscribed + [Unregister(AllocationTopic(id)), AllocationClosed(id)]
    {
      env.Call(AllocationFree(id));
      dead := Some("freed");
      unsubscribed := Close();
    }

    /** `connectionToProviderInterrupted`: a fixed reason, no IPC call, tear down. */
    method ConnectionToProviderInterrupted() returns (ghost unsubscribed: seq<Effect>)
      requires Valid() && CanClose()
      modifies this`dead, this`waitGate, this`closedDown, env`subscribed, env`trace
      ensures Valid() && closedDown && waitGate && dead == Some("connection to provider terminated")
      ensures env.subscribed == old(env.subscribed) - old(Topics())
      ensures !CanClose()
      ensures OncePerId(unsubscribed, inauguratorsIDs.Values, false)
      ensures env.trace == old(env.trace) + [HeartbeatUnregister(id)]
                           + unsubscribed + [Unregister(AllocationTopic(id)), AllocationClosed(id)]
    {
      dead := Some("connection to provider terminated");
      unsubscribed := Close();
    }

    /** `_close`: unregister the heartbeat, every inaugurator of the current
        map and the allocation topic, tell the IPC client, open the gate.
        Afterwards its own precondition fails: a second teardown is refused. */
    method Close() returns (ghost unsubscribed: seq<Effect>)
      requires Valid() && CanClose()
      modifies this`waitGate, this`closedDown, env`subscribed, env`trace
      ensures Valid() && closedDown && waitGate
      ensures env.subscribed == old(env.subscribed) - old(Topics())
      ensures !CanClose()
      ensures OncePerId(unsubscribed, inauguratorsIDs.Values, false)
      ensures env.trace == old(env.trace) + [HeartbeatUnregister(id)]
                           + unsubscribed + [Unregister(AllocationTopic(id)), AllocationClosed(id)]
    {
      env.UnregisterHeartbeat(id);
      unsubscribed := UnregisterInaugurators(inauguratorsIDs.Values);
      env.UnregisterTopic(AllocationTopic(id));
      env.NotifyAllocationClosed(id);
      waitGate := true;
      closedDown := true;
    }

    /** `_allocationEventBroadcasted`: changedState opens the gate;
        providerMessage is only logged; withdrawn calls the force-release
        callback, or commits suicide when there is none. */
    method AllocationEventBroadcasted(event: AllocationEvent)
      requires Valid()
      modifies this`waitGate, env`trace
      ensures Valid()
      ensures waitGate == (old(waitGate) || event.ChangedState?)
      ensures event.Withdrawn? && forceReleaseCallback == None ==> env.trace == old(env.trace) + [Suicide]
      ensures event.Withdrawn? && forceReleaseCallback.Some? ==>
                env.trace == old(env.trace) + [ForceReleaseCallback(forceReleaseCallback.value)]
      ensures !event.Withdrawn? ==> env.trace == old(env.trace)
    {
      match event
      case ChangedState =>
        waitGate := true;
      case ProviderMessage(_) =>
      case Withdrawn(_) =>
        if forceReleaseCallback == None {
          env.KillSelf();
        } else {
          env.CallForceRelease(forceReleaseCallback.value);
        }
      case OtherEvent =>
    }

    /** `_inauguratorEventBroadcasted`: a progress event stores the worker's
        percent; any event then reaches the progress callback, if there is
        one, with the recomputed overall percent. */
    method InauguratorEventBroadcasted(event: InauguratorEvent)
      modifies this`progressPercent, env`trace
      ensures progressPercent == if event.Progress? then old(progressPercent)[event.id := event.percent]
                                 else old(progressPercent)
      ensures progressCallback.Some? ==>
                env.trace == old(env.trace) + [ProgressCallback(progressCallback.value, OverallPercent(progressPercent), event)]
      ensures progressCallback == None ==> env.trace == old(env.trace)
      ensures AllPercents(old(progressPercent)) && (event.Progress? ==> 0 <= event.percent <= 100) ==>
                AllPercents(progressPercent)
    {
      if event.Progress? {
        progressPercent := progressPercent[event.id := event.percent];
      }
      if progressCallback.Some? {
        env.CallProgress(progressCallback.value, OverallPercent(progressPercent), event);
      }
    }

    /** The loop of `_close` over the inaugurator ids: one unregistration each. */
    method UnregisterInaugurators(ids: set<string>) returns (ghost calls: seq<Effect>)
      requires InauguratorTopics(ids) <= env.subscribed
      modifies env`subscribed, env`trace
      ensures env.subscribed == old(env.subscribed) - InauguratorTopics(ids)
      ensures OncePerId(calls, ids, false)
      ensures env.trace == old(env.trace) + calls
    {
      var todo := ids;
      ghost var done: set<string> := {};
      calls := [];
      while todo != {}
        invariant todo + done == ids && todo !! done
        invariant env.subscribed == old(env.subscribed) - InauguratorTopics(done)
        invariant env.trace == old(env.trace) + calls
        invariant OncePerId(calls, done, false)
        decreases |todo|
      {
        var w :| w in todo;
        assert InauguratorTopic(w) in InauguratorTopics(ids);
        env.UnregisterTopic(InauguratorTopic(w));
        OncePerIdAppend(calls, done, w, false);
        InauguratorTopicsAdd(done, w);
        calls := calls + [TopicCall(w, false)];
        todo := todo - {w};
        done := done + {w};
      }
    }

    /** The loop of `_refetchInauguratorIDs` over the new ids: one registration each. */
    method RegisterInaugurators(ids: set<string>) returns (ghost calls: seq<Effect>)
      requires InauguratorTopics(ids) !! env.subscribed
      modifies env`subscribed, env`trace
      ensures env.subscribed == old(env.subscribed) + InauguratorTopics(ids)
      ensures OncePerId(calls, ids, true)
      ensures env.trace == old(env.trace) + calls
    {
      var todo := ids;
      ghost var done: set<string> := {};
      calls := [];
      while todo != {}
        invariant todo + done == ids && todo !! done
        invariant env.subscribed == old(env.subscribed) + InauguratorTopics(done)
        invariant env.trace == old(env.trace) + calls
        invariant OncePerId(calls, done, true)
        decreases |todo|
      {
        var w :| w in todo;
        assert InauguratorTopic(w) in InauguratorTopics(ids);
        assert InauguratorTopic(w) !in InauguratorTopics(done);
        env.RegisterTopic(InauguratorTopic(w));
        OncePerIdAppend(calls, done, w, true);
        InauguratorTopicsAdd(done, w);
        calls := calls + [TopicCall(w, true)];
        todo := todo - {w};
        done := done + {w};
      }
    }

    /** `_refetchInauguratorIDs`, with the membership test on the previous
        ids: replace the map by the provider's and register every id not
        seen before, each once. Nothing is ever unregistered here. */
    method RefetchInauguratorIDs() returns (ghost registrations: seq<Effect>)
      requires InauguratorTopics(NewInaugurators(inauguratorsIDs, env.serviceInaugurators)) !! env.subscribed
      modifies this`inauguratorsIDs, env`subscribed, env`trace
      ensures old(Valid()) ==> Valid()
      ensures closedDown == old(closedDown)
      ensures inauguratorsIDs == env.serviceInaugurators
      ensures env.subscribed == old(env.subscribed) + InauguratorTopics(NewInaugurators(old(inauguratorsIDs), env.serviceInaugurators))
      ensures OncePerId(registrations, NewInaugurators(old(inauguratorsIDs), env.serviceInaugurators), true)
      ensures env.trace == old(env.trace) + [RemoteCall(AllocationInauguratorsIDs(id))] + registrations
    {
      var previous := inauguratorsIDs;
      env.Call(AllocationInauguratorsIDs(id));
      inauguratorsIDs := env.serviceInaugurators;
      registrations := RegisterInaugurators(NewInaugurators(previous, inauguratorsIDs));
      if old(Valid()) && !closedDown {
        InauguratorTopicsCovered(previous.Values, inauguratorsIDs.Values, old(env.subscribed));
        assert AllocationTopic(id) in env.subscribed;
      }
    }
  }

  /** After `free()`, `dead()` answers "freed" without another IPC call, and
      a second `free()` is refused. */
  method FreeThenDead(a: Allocation) returns (r: Option<string>)
    requires a.Valid() && a.CanClose()
    modifies a, a.env
    ensures r == Some("freed") && !a.CanClose()
    ensures |a.env.trace| > 0 && a.env.trace[|a.env.trace| - 1] == AllocationClosed(a.id)
  {
    ghost var unsubscribed := a.Free();
    ghost var t := a.env.trace;
    assert t[|t| - 1] == AllocationClosed(a.id);
    r := a.Dead();
    assert a.env.trace == t;
  }

  /** An allocation that is already dead or done when it is constructed can
      be waited on with no event arriving: the wait does not time out. */
  method WaitAfterConstruction(id: string, env: Collaborators) returns (a: Allocation, r: WaitResult)
    requires AllocationTopic(id) !in env.subscribed
    requires InauguratorTopics(env.serviceInaugurators.Values) !! env.subscribed
    requires Truthy(env.serviceDead) || env.serviceDone
    modifies env
    ensures r != TimedOut
    ensures Truthy(old(env.serviceDead)) ==> r == Died(old(env.serviceDead).value)
  {
    a := new Allocation(id, env);
    r := a.Wait();
  }

  /** Two workers reporting 50 and then 100 percent reach a registered
      progress callback as 50 and then 75 percent overall. */
  method TwoWorkersReportProgress(a: Allocation, callback: CallbackId)
    requires a.progressCallback == None && a.progressPercent == map[]
    modifies a, a.env
    ensures a.progressCallback == Some(callback)
    ensures a.progressPercent == map["w1" := 50, "w2" := 100]
    ensures a.env.trace == old(a.env.trace) + [ProgressCallback(callback, 50, Progress("w1", 50)),
                                               ProgressCallback(callback, 75, Progress("w2", 100))]
  {
    a.RegisterProgressCallback(Some(callback));
    a.InauguratorEventBroadcasted(Progress("w1", 50));
    a.InauguratorEventBroadcasted(Progress("w2", 100));
    ProgressScenario();
  }
}
