/** The topic router of geocamUtil/zmq/subscriber.py: a registry of handlers
    per topic prefix, kept in step with the SUBSCRIBE/UNSUBSCRIBE options set
    on the ZMQ socket, and the routing of incoming messages to handlers.

    The socket is represented only by the options set on it, in a ghost log;
    JSON decoding is a parameter `decode` (`None` when `json.loads` raises);
    a handler is an uninterpreted value of type `H`, and calling it is recorded as a
    `Call` in the order the calls happen. */
module Subscriber {
  import opened Wrappers
  import Strings

  /** A socket option the subscriber sets on its stream. `NewSocket` stands
      for `start()` creating a fresh socket with no subscriptions. */
  datatype SocketEvent = SubscribeOpt(topic: string) | UnsubscribeOpt(topic: string) | NewSocket

  /** The topics the socket is subscribed to after the events of `log`. */
  function SocketTopics(log: seq<SocketEvent>): set<string>
  {
    if log == [] then {}
    else
      var before := SocketTopics(log[..|log| - 1]);
      match log[|log| - 1]
      case SubscribeOpt(t) => before + {t}
      case UnsubscribeOpt(t) => before - {t}
      case NewSocket => {}
  }

  /** Handlers of one topic, by handler id. */
  type Registry<H> = map<nat, H>

  /** The topics whose registry holds at least one handler. */
  function ActiveTopics<H>(handlers: map<string, Registry<H>>): set<string>
  {
    set t | t in handlers && handlers[t] != map[]
  }

  /** One call `handler(topic, obj)`, with the id the handler was registered
      under. */
  datatype Call<H, J> = Call(handlerId: nat, handler: H, topic: string, obj: J)

  lemma CalledIdsAppend<H, J>(calls: seq<Call<H, J>>, call: Call<H, J>)
    ensures CalledIds(calls + [call]) == CalledIds(calls) + {call.handlerId}
  {
    var s := calls + [call];
    forall x | x in CalledIds(s) ensures x in CalledIds(calls) + {call.handlerId} {
      var i :| 0 <= i < |s| && s[i].handlerId == x;
      if i < |calls| {
        assert calls[i].handlerId == x;
      }
    }
    forall x | x in CalledIds(calls) ensures x in CalledIds(s) {
      var i :| 0 <= i < |calls| && calls[i].handlerId == x;
      assert s[i].handlerId == x;
    }
    assert s[|calls|].handlerId == call.handlerId;
  }

  /** Replacing one registry changes only whether that topic is active. */
  lemma ActiveAfterUpdate<H>(handlers: map<string, Registry<H>>, topic: string, registry: Registry<H>)
    ensures ActiveTopics(handlers[topic := registry]) ==
      if registry == map[] then ActiveTopics(handlers) - {topic} else ActiveTopics(handlers) + {topic}
  {
  }

  /** The split of `msg` at its first colon: the topic keeps the colon; with
      no colon the topic is empty and the body is all of `msg`. */
  function SplitTopic(msg: string): (r: (string, string))
    ensures r.0 + r.1 == msg
    ensures ':' in msg ==> |r.0| > 0 && r.0[|r.0| - 1] == ':' && ':' !in r.0[..|r.0| - 1]
    ensures ':' !in msg ==> r.0 == ""
  {
    var colonIndex := Strings.Find(msg, ':');
    assert msg == msg[..colonIndex + 1] + msg[colonIndex + 1..];
    (msg[..colonIndex + 1], msg[colonIndex + 1..])
  }

  /** A message built from a colon-free name, a colon and a body splits
      back into the name with its colon and the body, whatever the body
      holds. */
  lemma SplitTopicOf(name: string, body: string)
    requires ':' !in name
    ensures SplitTopic(name + ":" + body) == (name + ":", body)
  {
    var msg := name + ":" + body;
    Strings.FindAfterFree(name, body, ':');
    assert msg[..|name| + 1] == name + ":";
    assert msg[|name| + 1..] == body;
  }

  /** `k` names the registry that routing picks for `topic`: the exact key if
      there is one, even when its registry is empty; otherwise any key that
      is a prefix of the topic (dictionary order decides which one, and that
      order is not part of the model). */
  ghost predicate Eligible<H>(handlers: map<string, Registry<H>>, topic: string, k: string)
  {
    k in handlers && (if topic in handlers then k == topic else k <= topic)
  }

  /** `calls` calls every handler of `registry` exactly once, with `topic`
      and `obj`, in some order. */
  ghost predicate CallsEachOnce<H, J>(registry: Registry<H>, topic: string, obj: J, calls: seq<Call<H, J>>)
  {
    && (forall i :: 0 <= i < |calls| ==>
          && calls[i].handlerId in registry
          && calls[i].handler == registry[calls[i].handlerId]
          && calls[i].topic == topic && calls[i].obj == obj)
    && (forall i, j :: 0 <= i < j < |calls| ==> calls[i].handlerId != calls[j].handlerId)
    && CalledIds(calls) == registry.Keys
  }

  /** The handler ids that `calls` mention. */
  function CalledIds<H, J>(calls: seq<Call<H, J>>): set<nat>
  {
    set i | 0 <= i < |calls| :: calls[i].handlerId
  }

  /** Routing `msg` raises: its body is not JSON (ValueError), or no registry
      matches its topic (`None.itervalues()`, AttributeError). */
  ghost function RouteFault<H, J>(handlers: map<string, Registry<H>>, msg: string, decode: string -> Option<J>): Option<Fault>
  {
    var (topic, body) := SplitTopic(msg);
    if decode(body).None? then Some(ValueError)
    else if !exists k :: Eligible(handlers, topic, k) then Some(AttributeError)
    else None
  }

  /** `calls` is what routing `msg` does when it does not raise. */
  ghost predicate Routed<H, J>(handlers: map<string, Registry<H>>, msg: string, decode: string -> Option<J>, calls: seq<Call<H, J>>)
  {
    var (topic, body) := SplitTopic(msg);
    && decode(body).Some?
    && exists k :: Eligible(handlers, topic, k) && CallsEachOnce(handlers[k], topic, decode(body).value, calls)
  }

  function Flatten<T>(parts: seq<seq<T>>): seq<T>
  {
    if parts == [] then [] else Flatten(parts[..|parts| - 1]) + parts[|parts| - 1]
  }

  /** When the topic of `msg` is a key of `handlers`, routing calls exactly
      the handlers registered under that key, and no prefix handler, even
      when that registry is empty. */
  lemma ExactTopicShadowsPrefixes<H, J>(handlers: map<string, Registry<H>>, msg: string, decode: string -> Option<J>, calls: seq<Call<H, J>>)
    requires Routed(handlers, msg, decode, calls)
    requires SplitTopic(msg).0 in handlers
    ensures CalledIds(calls) == handlers[SplitTopic(msg).0].Keys
    ensures forall i :: 0 <= i < |calls| ==> calls[i].handler == handlers[SplitTopic(msg).0][calls[i].handlerId]
  {
    var topic := SplitTopic(msg).0;
    var k :| Eligible(handlers, topic, k) && CallsEachOnce(handlers[k], topic, decode(SplitTopic(msg).1).value, calls);
    assert k == topic;
  }

  /** A message whose topic has an emptied registry reaches no handler. */
  lemma EmptyExactTopicCallsNobody<H, J>(handlers: map<string, Registry<H>>, msg: string, decode: string -> Option<J>, calls: seq<Call<H, J>>)
    requires Routed(handlers, msg, decode, calls)
    requires SplitTopic(msg).0 in handlers && handlers[SplitTopic(msg).0] == map[]
    ensures calls == []
  {
    ExactTopicShadowsPrefixes(handlers, msg, decode, calls);
    NoIdsNoCalls(calls);
  }

  lemma NoIdsNoCalls<H, J>(calls: seq<Call<H, J>>)
    ensures CalledIds(calls) == {} ==> calls == []
  {
    if calls != [] {
      assert calls[0].handlerId in CalledIds(calls);
    }
  }

  /** Calls with pairwise different ids mention as many ids as there are
      calls. */
  lemma {:induction false} DistinctIdsCount<H, J>(calls: seq<Call<H, J>>)
    requires forall i, j :: 0 <= i < j < |calls| ==> calls[i].handlerId != calls[j].handlerId
    ensures |CalledIds(calls)| == |calls|
  {
    if calls != [] {
      var init, last := calls[..|calls| - 1], calls[|calls| - 1];
      assert calls == init + [last];
      DistinctIdsCount(init);
      CalledIdsAppend(init, last);
      forall x | x in CalledIds(init) ensures x != last.handlerId {
        var i :| 0 <= i < |init| && init[i].handlerId == x;
        assert calls[i].handlerId == x;
      }
    }
  }

  /** Routing to a registry makes exactly as many calls as the registry has
      handlers. */
  lemma CallCountIsRegistrySize<H, J>(registry: Registry<H>, topic: string, obj: J, calls: seq<Call<H, J>>)
    requires CallsEachOnce(registry, topic, obj, calls)
    ensures |calls| == |registry|
  {
    DistinctIdsCount(calls);
  }

  /** With a single registered handler, routing calls it exactly once. */
  lemma OnlyHandlerCalledOnce<H, J>(id: nat, handler: H, topic: string, obj: J, calls: seq<Call<H, J>>)
    requires CallsEachOnce(map[id := handler], topic, obj, calls)
    ensures calls == [Call(id, handler, topic, obj)]
  {
    assert map[id := handler].Keys == {id};
    CallCountIsRegistrySize(map[id := handler], topic, obj, calls);
    assert calls[0].handlerId in map[id := handler];
  }

  /** When `key` is the only registry routing may pick for the topic of
      `msg`, routing calls each handler of that registry once. */
  lemma SoleEligibleKey<H, J>(handlers: map<string, Registry<H>>, msg: string, decode: string -> Option<J>, calls: seq<Call<H, J>>, key: string)
    requires Routed(handlers, msg, decode, calls)
    requires forall k :: Eligible(handlers, SplitTopic(msg).0, k) ==> k == key
    ensures key in handlers
    ensures CallsEachOnce(handlers[key], SplitTopic(msg).0, decode(SplitTopic(msg).1).value, calls)
  {
  }

  lemma FlattenSingle<T>(parts: seq<seq<T>>)
    requires |parts| == 1
    ensures Flatten(parts) == parts[0]
  {
    assert parts[..0] == [];
  }

  /** When routing can only pick `key` for the topic of `msg` and `key`
      holds a single handler, routing a decodable `msg` does not raise and
      calls that handler once, with the decoded body. */
  lemma SoleHandlerRouting<H, J>(handlers: map<string, Registry<H>>, msg: string, decode: string -> Option<J>, calls: seq<Call<H, J>>,
                                 key: string, id: nat, handler: H)
    requires decode(SplitTopic(msg).1).Some?
    requires Eligible(handlers, SplitTopic(msg).0, key)
    requires forall k :: Eligible(handlers, SplitTopic(msg).0, k) ==> k == key
    requires handlers[key] == map[id := handler]
    ensures RouteFault(handlers, msg, decode) == None
    ensures Routed(handlers, msg, decode, calls) ==>
      calls == [Call(id, handler, SplitTopic(msg).0, decode(SplitTopic(msg).1).value)]
  {
    if Routed(handlers, msg, decode, calls) {
      SoleEligibleKey(handlers, msg, decode, calls, key);
      OnlyHandlerCalledOnce(id, handler, SplitTopic(msg).0, decode(SplitTopic(msg).1).value, calls);
    }
  }

  /** The keys of SUBSCRIBER_OPT_DEFAULTS. */
  const OptionKeys: set<string> := {"moduleName", "centralPublishEndpoint"}

  /** `getOptionValues`: the default option keys whose value in `opts` is set
      and not None, with those values. A key missing from `opts` stands for
      an attribute that `getattr` does not find. */
  method GetOptionValues<V>(opts: map<string, Option<V>>) returns (result: map<string, V>)
    ensures result.Keys == set k | k in OptionKeys && k in opts && opts[k].Some?
    ensures forall k :: k in result ==> opts[k] == Some(result[k])
  {
    result := map[];
    var keys := OptionKeys;
    while keys != {}
      invariant keys <= OptionKeys
      invariant result.Keys == set k | k in OptionKeys - keys && k in opts && opts[k].Some?
      invariant forall k :: k in result ==> k in opts && opts[k] == Some(result[k])
      decreases keys
    {
      var key :| key in keys;
      var val := if key in opts then opts[key] else None;
      if val.Some? {
        result := result[key := val.value];
      }
      keys := keys - {key};
    }
  }

  /** Every registered id is below `counter`. */
  ghost predicate IdsBelow<H>(handlers: map<string, Registry<H>>, counter: nat)
  {
    forall t, id :: t in handlers && id in handlers[t] ==> id < counter
  }

  /** No id is registered under two topics. */
  ghost predicate IdsUnique<H>(handlers: map<string, Registry<H>>)
  {
    forall t1, t2, id :: t1 in handlers && t2 in handlers && id in handlers[t1] && id in handlers[t2] ==> t1 == t2
  }

  /** The socket is subscribed to a subset of the topics with handlers, and
      to exactly those as long as `start()` ran at most once. */
  ghost predicate SocketInStep<H>(handlers: map<string, Registry<H>>, socketLog: seq<SocketEvent>, starts: nat, started: bool)
  {
    && SocketTopics(socketLog) <= ActiveTopics(handlers)
    && (starts <= 1 ==> SocketTopics(socketLog) == ActiveTopics(handlers))
    && (started <==> starts > 0)
    && (starts == 0 ==> socketLog == [] && ActiveTopics(handlers) == {})
  }

  /** Registering `handler` under `topic` with id `counter` keeps the ids
      below the incremented counter and unique. */
  lemma AddHandlerKeepsIds<H>(handlers: map<string, Registry<H>>, counter: nat, topic: string, handler: H)
    requires IdsBelow(handlers, counter) && IdsUnique(handlers)
    ensures var registry := if topic in handlers then handlers[topic] else map[];
      var updated := handlers[topic := registry[counter := handler]];
      IdsBelow(updated, counter + 1) && IdsUnique(updated)
  {
  }

  /** Replacing a registry by part of it keeps the ids below the counter and
      unique. */
  lemma ShrinkRegistryKeepsIds<H>(handlers: map<string, Registry<H>>, counter: nat, topic: string, registry: Registry<H>)
    requires IdsBelow(handlers, counter) && IdsUnique(handlers)
    requires topic in handlers ==> registry.Keys <= handlers[topic].Keys
    requires topic !in handlers ==> registry == map[]
    ensures IdsBelow(handlers[topic := registry], counter) && IdsUnique(handlers[topic := registry])
  {
  }

  /** Before `start()`, putting an empty registry in place keeps the socket
      in step: the topic does not become active. */
  lemma SubscribeBeforeStart<H>(handlers: map<string, Registry<H>>, log: seq<SocketEvent>, starts: nat, started: bool, topic: string)
    requires SocketInStep(handlers, log, starts, started)
    requires topic in handlers ==> handlers[topic] == map[]
    ensures SocketInStep(handlers[topic := map[]], log, starts, started)
  {
    ActiveAfterUpdate(handlers, topic, map[]);
  }

  /** The first handler of a topic, with the subscription it triggers, keeps
      the socket in step. */
  lemma SubscribeNewTopic<H>(handlers: map<string, Registry<H>>, log: seq<SocketEvent>, starts: nat, started: bool, topic: string,
                             registry: Registry<H>)
    requires SocketInStep(handlers, log, starts, started) && started
    requires topic in handlers ==> handlers[topic] == map[]
    requires registry != map[]
    ensures SocketInStep(handlers[topic := registry], log + [SubscribeOpt(topic)], starts, started)
  {
    var log' := log + [SubscribeOpt(topic)];
    assert log'[..|log'| - 1] == log;
    assert SocketTopics(log') == SocketTopics(log) + {topic};
    ActiveAfterUpdate(handlers, topic, registry);
  }

  /** A further handler of an active topic needs no subscription. */
  lemma SubscribeKnownTopic<H>(handlers: map<string, Registry<H>>, log: seq<SocketEvent>, starts: nat, started: bool, topic: string,
                               registry: Registry<H>)
    requires SocketInStep(handlers, log, starts, started)
    requires topic in handlers && handlers[topic] != map[]
    requires registry != map[]
    ensures SocketInStep(handlers[topic := registry], log, starts, started)
  {
    ActiveAfterUpdate(handlers, topic, registry);
    assert topic in ActiveTopics(handlers);
  }

  /** One more routed message: the per-message calls grow by `one` and the
      flattened calls by its calls. */
  lemma RoutedExtend<H, J>(handlers: map<string, Registry<H>>, messages: seq<string>, decode: string -> Option<J>,
                           parts: seq<seq<Call<H, J>>>, one: seq<Call<H, J>>)
    requires |parts| < |messages|
    requires forall i :: 0 <= i < |parts| ==> Routed(handlers, messages[i], decode, parts[i])
    requires Routed(handlers, messages[|parts|], decode, one)
    ensures forall i :: 0 <= i < |parts| + 1 ==> Routed(handlers, messages[i], decode, (parts + [one])[i])
    ensures Flatten(parts + [one]) == Flatten(parts) + one
  {
    var more := parts + [one];
    forall i | 0 <= i < |parts| + 1
      ensures Routed(handlers, messages[i], decode, more[i])
    {
      if i < |parts| {
        assert more[i] == parts[i];
      } else {
        assert more[i] == one;
      }
    }
    assert more[..|parts|] == parts;
  }

  class ZmqSubscriber<H> {
    /** topic -> (handler id -> handler) */
    var handlers: map<string, Registry<H>>
    /** The next handler id. */
    var counter: nat
    /** Whether `start()` has created the stream. */
    var started: bool
    /** The socket options set so far, oldest first. */
    ghost var socketLog: seq<SocketEvent>
    /** How many times `start()` ran. */
    ghost var starts: nat

    /** Ids are below the counter and no id is registered under two topics;
        the socket is subscribed to a subset of the topics with handlers, and
        to exactly those as long as `start()` ran at most once. */
    ghost predicate Valid()
      reads this
    {
      && IdsBelow(handlers, counter)
      && IdsUnique(handlers)
      && SocketInStep(handlers, socketLog, starts, started)
    }

    /** `__init__`, registry state only: no handlers and the counter at 0. */
    constructor ()
      ensures Valid()
      ensures handlers == map[] && counter == 0 && !started
      ensures socketLog == [] && starts == 0
    {
      handlers := map[];
      counter := 0;
      started := false;
      socketLog := [];
      starts := 0;
    }

    /** `start`: a new socket, with no subscriptions, replaces any earlier one. */
    method Start()
      requires Valid()
      modifies this
      ensures Valid()
      ensures started && starts == old(starts) + 1
      ensures socketLog == old(socketLog) + [NewSocket]
      ensures handlers == old(handlers) && counter == old(counter)
    {
      ghost var log := socketLog + [NewSocket];
      assert log[..|log| - 1] == socketLog;
      assert SocketTopics(log) == {};
      if starts == 0 {
        assert SocketTopics(socketLog) == ActiveTopics(handlers);
      }
      started := true;
      socketLog := log;
      starts := starts + 1;
    }

    /** `subscribe`: register `handler` under `topic` with the next id and
        return the id; the socket subscribes to `topic` when its registry was
        missing or empty. Before `start()` there is no stream, and setting the
        option raises AttributeError after an empty registry was already put
        in place. */
    method Subscribe(topic: string, handler: H) returns (r: Result<nat>)
      requires Valid()
      modifies this
      ensures Valid()
      ensures started == old(started) && starts == old(starts)
      ensures var registry := if topic in old(handlers) then old(handlers)[topic] else map[];
        if registry == map[] && !started then
          && r == Err(AttributeError)
          && handlers == old(handlers)[topic := map[]]
          && counter == old(counter) && socketLog == old(socketLog)
        else
          && r == Ok(old(counter)) && counter == old(counter) + 1
          && handlers == old(handlers)[topic := registry[old(counter) := handler]]
          && socketLog == old(socketLog) + (if registry == map[] then [SubscribeOpt(topic)] else [])
      ensures r.Ok? ==> forall t :: t in old(handlers) ==> r.value !in old(handlers)[t]
    {
      ghost var before, log := handlers, socketLog;
      AddHandlerKeepsIds(before, counter, topic, handler);
      if topic !in handlers {
        handlers := handlers[topic := map[]];
      }
      var registry := handlers[topic];
      if registry == map[] {
        if !started {
          SubscribeBeforeStart(before, log, starts, started, topic);
          ShrinkRegistryKeepsIds(before, counter, topic, map[]);
          return Err(AttributeError);
        }
        socketLog := socketLog + [SubscribeOpt(topic)];
        assert counter in registry[counter := handler];
        SubscribeNewTopic(before, log, starts, started, topic, registry[counter := handler]);
      } else {
        assert counter in registry[counter := handler];
        SubscribeKnownTopic(before, log, starts, started, topic, registry[counter := handler]);
      }
      var handlerId := counter;
      counter := counter + 1;
      handlers := handlers[topic := registry[handlerId := handler]];
      assert handlers == before[topic := registry[handlerId := handler]];
      r := Ok(handlerId);
    }

    /** `unsubscribe`: remove `handlerId` from `topic`'s registry; the socket
        unsubscribes when the registry becomes empty, and the topic stays
        mapped to the empty registry. An unknown topic or id raises KeyError
        and changes nothing. */
    method Unsubscribe(topic: string, handlerId: nat) returns (r: Outcome)
      requires Valid()
      modifies this
      ensures Valid()
      ensures counter == old(counter) && started == old(started) && starts == old(starts)
      ensures r == Pass <==> topic in old(handlers) && handlerId in old(handlers)[topic]
      ensures r.Fail? ==> r.error == KeyError && handlers == old(handlers) && socketLog == old(socketLog)
      ensures r.Pass? ==>
        && handlers == old(handlers)[topic := old(handlers)[topic] - {handlerId}]
        && socketLog == old(socketLog) + (if handlers[topic] == map[] then [UnsubscribeOpt(topic)] else [])
    {
      if topic !in handlers {
        return Fail(KeyError);
      }
      var registry := handlers[topic];
      if handlerId !in registry {
        return Fail(KeyError);
      }
      registry := registry - {handlerId};
      ShrinkRegistryKeepsIds(handlers, counter, topic, registry);
      ActiveAfterUpdate(handlers, topic, registry);
      handlers := handlers[topic := registry];
      if registry == map[] {
        assert topic in ActiveTopics(old(handlers));
        ghost var log := socketLog + [UnsubscribeOpt(topic)];
        assert log[..|log| - 1] == socketLog;
        assert SocketTopics(log) == SocketTopics(socketLog) - {topic};
        socketLog := log;
      }
      r := Pass;
    }

    /** `routeMessage` for one message: split off the topic, decode the
        body, pick the registry (exact key first, else the first prefix key
        met while walking the dictionary) and call each of its handlers. */
    method RouteOne<J>(msg: string, decode: string -> Option<J>) returns (calls: seq<Call<H, J>>, fault: Option<Fault>)
      ensures fault == RouteFault(handlers, msg, decode)
      ensures fault.None? ==> Routed(handlers, msg, decode, calls)
      ensures fault.Some? ==> calls == []
    {
      var (topic, body) := SplitTopic(msg);
      var obj := decode(body);
      if obj.None? {
        return [], Some(ValueError);
      }
      var topicRegistry: Option<Registry<H>> := None;
      ghost var chosen: string := topic;
      if topic in handlers {
        topicRegistry := Some(handlers[topic]);
      } else {
        var keys := handlers.Keys;
        while keys != {}
          invariant keys <= handlers.Keys
          invariant forall k :: k in handlers && k !in keys ==> !(k <= topic)
          decreases keys
        {
          var topicPrefix :| topicPrefix in keys;
          if topicPrefix <= topic {
            topicRegistry := Some(handlers[topicPrefix]);
            chosen := topicPrefix;
            break;
          }
          keys := keys - {topicPrefix};
        }
      }
      if topicRegistry.None? {
        assert forall k :: !Eligible(handlers, topic, k);
        return [], Some(AttributeError);
      }
      assert Eligible(handlers, topic, chosen) && topicRegistry.value == handlers[chosen];
      calls := CallAll(topicRegistry.value, topic, obj.value);
      fault := None;
    }

    /** Call every handler of `registry` once, in dictionary order (which
        the model leaves open). */
    static method CallAll<J>(registry: Registry<H>, topic: string, obj: J) returns (calls: seq<Call<H, J>>)
      ensures CallsEachOnce(registry, topic, obj, calls)
    {
      calls := [];
      var pending := registry.Keys;
      while pending != {}
        invariant pending <= registry.Keys
        invariant forall i :: 0 <= i < |calls| ==>
          && calls[i].handlerId in registry && calls[i].handlerId !in pending
          && calls[i].handler == registry[calls[i].handlerId]
          && calls[i].topic == topic && calls[i].obj == obj
        invariant forall i, j :: 0 <= i < j < |calls| ==> calls[i].handlerId != calls[j].handlerId
        invariant CalledIds(calls) == registry.Keys - pending
        decreases pending
      {
        var handlerId :| handlerId in pending;
        var call := Call(handlerId, registry[handlerId], topic, obj);
        CalledIdsAppend(calls, call);
        calls := calls + [call];
        pending := pending - {handlerId};
      }
    }

    /** `routeMessage`: the messages are routed in list order; the first one
        that raises ends the routing, after the handlers of the messages
        before it have run. `parts[i]` are the calls made for `messages[i]`. */
    method RouteMessage<J>(messages: seq<string>, decode: string -> Option<J>)
      returns (calls: seq<Call<H, J>>, r: Outcome, ghost parts: seq<seq<Call<H, J>>>)
      ensures calls == Flatten(parts)
      ensures |parts| <= |messages|
      ensures forall i :: 0 <= i < |parts| ==> Routed(handlers, messages[i], decode, parts[i])
      ensures r.Pass? <==> |parts| == |messages|
      ensures r.Fail? ==> RouteFault(handlers, messages[|parts|], decode) == Some(r.error)
    {
      calls, parts := [], [];
      for n := 0 to |messages|
        invariant |parts| == n
        invariant calls == Flatten(parts)
        invariant forall i :: 0 <= i < n ==> Routed(handlers, messages[i], decode, parts[i])
      {
        var one, fault := RouteOne(messages[n], decode);
        if fault.Some? {
          return calls, Fail(fault.value), parts;
        }
        RoutedExtend(handlers, messages, decode, parts, one);
        calls, parts := calls + one, parts + [one];
      }
      r := Pass;
    }
  }

  /** Handler ids grow across topics: after `start()`, subscriptions to two
      different topics get ids 0 and 1, and the socket subscribes to each
      topic once. */
  method TwoTopicsScenario<H>(h1: H, h2: H) returns (first: Result<nat>, second: Result<nat>, ghost log: seq<SocketEvent>)
    ensures first == Ok(0) && second == Ok(1)
    ensures log == [NewSocket, SubscribeOpt("gps:"), SubscribeOpt("imu:")]
  {
    var sub := new ZmqSubscriber<H>();
    sub.Start();
    first := sub.Subscribe("gps:", h1);
    second := sub.Subscribe("imu:", h2);
    log := sub.socketLog;
  }

  /** A started subscriber with a catch-all handler (id 0) under the empty
      prefix and a handler (id 1) under "gps:" that was then unsubscribed. */
  method EmptiedSubscriber<H>(catchAll: H, h: H) returns (sub: ZmqSubscriber<H>)
    ensures fresh(sub)
    ensures sub.handlers == map["" := map[0 := catchAll], "gps:" := map[]]
  {
    sub := new ZmqSubscriber<H>();
    sub.Start();
    var idAll := sub.Subscribe("", catchAll);
    assert sub.handlers == map["" := map[0 := catchAll]] && sub.counter == 1;
    var idGps := sub.Subscribe("gps:", h);
    assert sub.handlers == map["" := map[0 := catchAll], "gps:" := map[1 := h]];
    var gone := sub.Unsubscribe("gps:", 1);
  }

  /** An exact key wins over a prefix key even after its registry was
      emptied: a message on the emptied topic reaches no handler. */
  method EmptiedExactTopicScenario<H>(catchAll: H, h: H) returns (calls: seq<Call<H, string>>, r: Outcome)
    ensures r == Pass && calls == []
  {
    var sub := EmptiedSubscriber(catchAll, h);
    var decode := (body: string) => Some(body);
    assert decode("{}") == Some("{}");
    EmptiedTopicRoutes(sub.handlers, catchAll, decode, []);
    ghost var parts: seq<seq<Call<H, string>>>;
    calls, r, parts := sub.RouteMessage(["gps:{}"], decode);
    FlattenSingle(parts);
    EmptiedTopicRoutes(sub.handlers, catchAll, decode, parts[0]);
  }

  /** In the registry state of `EmptiedSubscriber`, "gps:{}" is routed to
      the emptied "gps:" registry, so it raises nothing and calls nobody. */
  lemma EmptiedTopicRoutes<H>(handlers: map<string, Registry<H>>, catchAll: H, decode: string -> Option<string>,
                              calls: seq<Call<H, string>>)
    requires handlers == map["" := map[0 := catchAll], "gps:" := map[]]
    requires decode("{}") == Some("{}")
    ensures RouteFault(handlers, "gps:{}", decode) == None
    ensures Routed(handlers, "gps:{}", decode, calls) ==> calls == []
  {
    SplitTopicOf("gps", "{}");
    assert "gps" + ":" + "{}" == "gps:{}";
    assert SplitTopic("gps:{}").0 == "gps:" && SplitTopic("gps:{}").1 == "{}";
    assert Eligible(handlers, "gps:", "gps:");
    if Routed(handlers, "gps:{}", decode, calls) {
      EmptyExactTopicCallsNobody(handlers, "gps:{}", decode, calls);
    }
  }

  /** In the registry state of `EmptiedSubscriber`, the empty prefix is the
      only registry routing may pick for the topic "imu:". */
  lemma CatchAllOnly<H>(handlers: map<string, Registry<H>>, catchAll: H)
    requires handlers == map["" := map[0 := catchAll], "gps:" := map[]]
    ensures Eligible(handlers, "imu:", "") && handlers[""] == map[0 := catchAll]
    ensures forall k :: Eligible(handlers, "imu:", k) ==> k == ""
  {
    assert !("gps:" <= "imu:") by {
      assert "gps:"[0] != "imu:"[0];
    }
    assert handlers.Keys == {"", "gps:"};
  }

  /** In the registry state of `EmptiedSubscriber`, "imu:{}" reaches the
      catch-all handler once, with the decoded body. */
  lemma CatchAllRoutes<H>(handlers: map<string, Registry<H>>, catchAll: H, decode: string -> Option<string>,
                          calls: seq<Call<H, string>>)
    requires handlers == map["" := map[0 := catchAll], "gps:" := map[]]
    requires decode("{}") == Some("{}")
    ensures RouteFault(handlers, "imu:{}", decode) == None
    ensures Routed(handlers, "imu:{}", decode, calls) ==> calls == [Call(0, catchAll, "imu:", "{}")]
  {
    SplitTopicOf("imu", "{}");
    assert "imu" + ":" + "{}" == "imu:{}";
    assert SplitTopic("imu:{}").0 == "imu:" && SplitTopic("imu:{}").1 == "{}";
    CatchAllOnly(handlers, catchAll);
    SoleHandlerRouting(handlers, "imu:{}", decode, calls, "", 0, catchAll);
  }

  /** A message on a topic with no key of its own reaches the catch-all
      handler under the empty prefix, once, with the decoded body. */
  method CatchAllScenario<H>(catchAll: H, h: H) returns (calls: seq<Call<H, string>>, r: Outcome)
    ensures r == Pass && calls == [Call(0, catchAll, "imu:", "{}")]
  {
    var sub := EmptiedSubscriber(catchAll, h);
    var decode := (body: string) => Some(body);
    assert decode("{}") == Some("{}");
    CatchAllRoutes(sub.handlers, catchAll, decode, []);
    ghost var parts: seq<seq<Call<H, string>>>;
    calls, r, parts := sub.RouteMessage(["imu:{}"], decode);
    FlattenSingle(parts);
    CatchAllRoutes(sub.handlers, catchAll, decode, parts[0]);
  }
}
