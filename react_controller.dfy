/** The UI-side registry of the analyzer (src/sections/analyzer/analyzerController.js):
    a `Set` of subscriber objects, the unsubscribe function `onMessage`
    returns, and the message listener, installed once, that calls on every
    subscriber the hook matching the message type. A `Set` enumerates in
    insertion order, so it is a sequence without repeats here. */
module ReactController {
  import opened JsCore

  /** A payload handed to a hook, opaque to the registry. */
  type Value = string

  /** The hooks a subscriber object may define. */
  datatype Hook = OnScanComplete | OnRuntimeScanUpdate | OnRuntimeScanComplete | OnScanError

  /** A message from the background: its type and the fields hooks receive. */
  datatype UiMessage = UiMessage(msgType: string, data: Value, url: Value, allResults: Value, message: Value)

  /** The callbacks object given to `onMessage`; which hooks it defines is
      fixed when it is made. Identity is object identity. */
  class Subscriber {
    const hooks: set<Hook>

    constructor (hooks: set<Hook>)
      ensures this.hooks == hooks
    {
      this.hooks := hooks;
    }
  }

  /** One hook call made by the listener. */
  datatype Invocation = Invocation(sub: Subscriber, hook: Hook, args: seq<Value>)

  const ScanCompleteType: string := "analyzer_scanComplete"
  const RuntimeScanUpdateType: string := "analyzer_runtimeScanUpdate"
  const RuntimeScanCompleteType: string := "analyzer_runtimeScanComplete"
  const ScanErrorType: string := "analyzer_scanError"

  /** The hook a message type selects, None for any other type. */
  function HookFor(msgType: string): Option<Hook> {
    if msgType == ScanCompleteType then Some(OnScanComplete)
    else if msgType == RuntimeScanUpdateType then Some(OnRuntimeScanUpdate)
    else if msgType == RuntimeScanCompleteType then Some(OnRuntimeScanComplete)
    else if msgType == ScanErrorType then Some(OnScanError)
    else None
  }

  /** The arguments each hook receives from the message. */
  function ArgsFor(hook: Hook, msg: UiMessage): seq<Value> {
    match hook
    case OnScanComplete => [msg.data]
    case OnRuntimeScanUpdate => [msg.url, msg.data]
    case OnRuntimeScanComplete => [msg.allResults]
    case OnScanError => [msg.message]
  }

  /** The calls one subscriber receives: its matching hook, if it defines it. */
  function CallsFor(sub: Subscriber, msg: UiMessage): seq<Invocation> {
    match HookFor(msg.msgType)
    case None => []
    case Some(h) => if h in sub.hooks then [Invocation(sub, h, ArgsFor(h, msg))] else []
  }

  /** The calls of one dispatch: each subscriber's, in set order. */
  function DispatchCalls(subs: seq<Subscriber>, msg: UiMessage): seq<Invocation>
    decreases |subs|
  {
    if subs == [] then []
    else DispatchCalls(subs[..|subs| - 1], msg) + CallsFor(subs[|subs| - 1], msg)
  }

  /** The calls of `calls` made on `sub`. */
  function CallsOn(calls: seq<Invocation>, sub: Subscriber): seq<Invocation> {
    if calls == [] then []
    else (if calls[0].sub == sub then [calls[0]] else []) + CallsOn(calls[1..], sub)
  }

  lemma {:induction false} CallsOnAppend(a: seq<Invocation>, b: seq<Invocation>, sub: Subscriber)
    ensures CallsOn(a + b, sub) == CallsOn(a, sub) + CallsOn(b, sub)
  {
    if a != [] {
      CallsOnAppend(a[1..], b, sub);
      assert (a + b)[1..] == a[1..] + b;
    } else {
      assert a + b == b;
    }
  }

  ghost predicate Distinct(subs: seq<Subscriber>) {
    forall i, j :: 0 <= i < j < |subs| ==> subs[i] != subs[j]
  }

  /** The hooks each message type calls, with their arguments. */
  lemma HookMapping(msg: UiMessage)
    ensures msg.msgType == "analyzer_scanComplete" ==>
      HookFor(msg.msgType) == Some(OnScanComplete) && ArgsFor(OnScanComplete, msg) == [msg.data]
    ensures msg.msgType == "analyzer_runtimeScanUpdate" ==>
      HookFor(msg.msgType) == Some(OnRuntimeScanUpdate)
      && ArgsFor(OnRuntimeScanUpdate, msg) == [msg.url, msg.data]
    ensures msg.msgType == "analyzer_runtimeScanComplete" ==>
      HookFor(msg.msgType) == Some(OnRuntimeScanComplete)
      && ArgsFor(OnRuntimeScanComplete, msg) == [msg.allResults]
    ensures msg.msgType == "analyzer_scanError" ==>
      HookFor(msg.msgType) == Some(OnScanError) && ArgsFor(OnScanError, msg) == [msg.message]
  {
  }

  /** A message of any other type calls no hook on any subscriber. */
  lemma {:induction false} UnknownTypeCallsNothing(subs: seq<Subscriber>, msg: UiMessage)
    requires HookFor(msg.msgType).None?
    ensures DispatchCalls(subs, msg) == []
    decreases |subs|
  {
    if subs != [] {
      UnknownTypeCallsNothing(subs[..|subs| - 1], msg);
    }
  }

  /** Each registered subscriber receives exactly the call of its matching
      hook, once, when it defines that hook, and nothing otherwise; an
      object that is not registered receives nothing. */
  lemma {:induction false} DispatchOncePerSubscriber(subs: seq<Subscriber>, msg: UiMessage, sub: Subscriber)
    requires Distinct(subs)
    ensures CallsOn(DispatchCalls(subs, msg), sub) == if sub in subs then CallsFor(sub, msg) else []
    decreases |subs|
  {
    if subs != [] {
      var init, last := subs[..|subs| - 1], subs[|subs| - 1];
      assert Distinct(init);
      DispatchOncePerSubscriber(init, msg, sub);
      CallsOnAppend(DispatchCalls(init, msg), CallsFor(last, msg), sub);
      assert subs == init + [last];
      if sub == last {
        assert sub !in init;
      }
    }
  }

  // ---------- the subscriber set ----------

  /** `subscribers.add(x)`. */
  function Added(subs: seq<Subscriber>, x: Subscriber): seq<Subscriber> {
    if x in subs then subs else subs + [x]
  }

  /** `subscribers.delete(x)`. */
  function Removed(subs: seq<Subscriber>, x: Subscriber): (r: seq<Subscriber>)
    ensures |r| <= |subs|
  {
    if subs == [] then []
    else (if subs[0] == x then [] else [subs[0]]) + Removed(subs[1..], x)
  }

  /** Adding keeps the set without repeats, adds `x`, keeps every other
      member, and adding again changes nothing. */
  lemma AddedSpec(subs: seq<Subscriber>, x: Subscriber, y: Subscriber)
    requires Distinct(subs)
    ensures Distinct(Added(subs, x))
    ensures y in Added(subs, x) <==> y == x || y in subs
    ensures Added(Added(subs, x), x) == Added(subs, x)
  {
  }

  /** Deleting removes exactly `x`. */
  lemma {:induction false} RemovedSpec(subs: seq<Subscriber>, x: Subscriber, y: Subscriber)
    ensures y in Removed(subs, x) <==> y in subs && y != x
  {
    if subs != [] {
      RemovedSpec(subs[1..], x, y);
      assert subs == [subs[0]] + subs[1..];
    }
  }

  /** Deleting keeps the set without repeats. */
  lemma {:induction false} RemovedDistinct(subs: seq<Subscriber>, x: Subscriber)
    requires Distinct(subs)
    ensures Distinct(Removed(subs, x))
  {
    if subs != [] {
      var rest := Removed(subs[1..], x);
      RemovedDistinct(subs[1..], x);
      if subs[0] != x {
        RemovedSpec(subs[1..], x, subs[0]);
        assert subs[0] !in subs[1..];
        var r := [subs[0]] + rest;
        forall i, j | 0 <= i < j < |r| ensures r[i] != r[j] {
          if i == 0 {
            assert r[j] == rest[j - 1] && r[j] in rest;
          } else {
            assert r[i] == rest[i - 1] && r[j] == rest[j - 1];
          }
        }
      }
    }
  }

  /** Deleting a member that is not there changes nothing: calling the
      unsubscribe function twice is the same as calling it once. */
  lemma {:induction false} RemovedAbsent(subs: seq<Subscriber>, x: Subscriber)
    requires x !in subs
    ensures Removed(subs, x) == subs
  {
    if subs != [] {
      RemovedAbsent(subs[1..], x);
      assert subs == [subs[0]] + subs[1..];
    }
  }

  /** Unsubscribing right after subscribing a new object restores the set. */
  lemma {:induction false} RemovedAdded(subs: seq<Subscriber>, x: Subscriber)
    requires x !in subs
    ensures Removed(Added(subs, x), x) == subs
  {
    if subs == [] {
      assert Added(subs, x) == [x];
    } else {
      assert Added(subs, x)[1..] == Added(subs[1..], x);
      assert x !in subs[1..];
      RemovedAdded(subs[1..], x);
      assert subs == [subs[0]] + subs[1..];
    }
  }

  class AnalyzerReactController {
    var subscribers: seq<Subscriber>
    var listenerInitialized: bool
    /** How many times `browser.runtime.onMessage.addListener` was called. */
    var listenersAdded: nat

    ghost predicate Valid()
      reads this
    {
      Distinct(subscribers) && listenersAdded == (if listenerInitialized then 1 else 0)
    }

    constructor ()
      ensures Valid()
      ensures subscribers == [] && listenerInitialized && listenersAdded == 1
    {
      subscribers := [];
      listenerInitialized := false;
      listenersAdded := 0;
      new;
      InitMessageListenerOnce();
    }

    /** `_initMessageListenerOnce()`: the listener is installed at most once. */
    method InitMessageListenerOnce()
      requires Valid()
      modifies this`listenerInitialized, this`listenersAdded
      ensures Valid()
      ensures listenerInitialized && listenersAdded == 1
      ensures old(listenerInitialized) ==> unchanged(this)
    {
      if listenerInitialized {
        return;
      }
      listenerInitialized := true;
      listenersAdded := listenersAdded + 1;
    }

    /** `onMessage(callbacks)`: registers `cb`; the unsubscribe function it
        returns is `Unsubscribe(cb)`. */
    method OnMessage(cb: Subscriber)
      requires Valid()
      modifies this`subscribers
      ensures Valid()
      ensures subscribers == Added(old(subscribers), cb)
    {
      AddedSpec(subscribers, cb, cb);
      if cb !in subscribers {
        subscribers := subscribers + [cb];
      }
    }

    /** The unsubscribe function: `subscribers.delete(cb)`, which answers
        whether `cb` was registered. */
    method Unsubscribe(cb: Subscriber) returns (deleted: bool)
      requires Valid()
      modifies this`subscribers
      ensures Valid()
      ensures subscribers == Removed(old(subscribers), cb)
      ensures deleted == (cb in old(subscribers))
    {
      deleted := cb in subscribers;
      RemovedDistinct(subscribers, cb);
      subscribers := Removed(subscribers, cb);
    }

    /** The listener's loop over the subscribers for one message. */
    method Dispatch(msg: UiMessage) returns (calls: seq<Invocation>)
      ensures calls == DispatchCalls(subscribers, msg)
    {
      calls := [];
      for i := 0 to |subscribers|
        invariant calls == DispatchCalls(subscribers[..i], msg)
      {
        assert subscribers[..i + 1][..i] == subscribers[..i];
        var sub := subscribers[i];
        if msg.msgType == "analyzer_scanComplete" {
          if OnScanComplete in sub.hooks {
            calls := calls + [Invocation(sub, OnScanComplete, [msg.data])];
          }
        } else if msg.msgType == "analyzer_runtimeScanUpdate" {
          if OnRuntimeScanUpdate in sub.hooks {
            calls := calls + [Invocation(sub, OnRuntimeScanUpdate, [msg.url, msg.data])];
          }
        } else if msg.msgType == "analyzer_runtimeScanComplete" {
          if OnRuntimeScanComplete in sub.hooks {
            calls := calls + [Invocation(sub, OnRuntimeScanComplete, [msg.allResults])];
          }
        } else if msg.msgType == "analyzer_scanError" {
          if OnScanError in sub.hooks {
            calls := calls + [Invocation(sub, OnScanError, [msg.message])];
          }
        }
      }
      assert subscribers[..|subscribers|] == subscribers;
    }
  }
}
