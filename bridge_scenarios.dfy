/** Clients of the current `WebViewInterface`: whole exchanges, each on a
    fresh per-process state, proved from the methods' contracts alone. */
module BridgeScenarios {
  import opened Text
  import opened Json
  import opened Protocol
  import opened Bridge

  /** A call followed by the web view's answer, which echoes the id it was
      given: the answer reaches the error handler when `isError` is true and
      the success handler otherwise, once per answer. The entry is not
      removed, so a repeated answer reaches the same handler again. */
  method CallThenRespond(codec: Codec, behaviour: Behaviour, onSuccess: Callback, onError: Callback,
                         args: Option<Json>, isError: bool, response: Json)
    returns (first: seq<Invocation>, second: seq<Invocation>)
    requires forall j :: RoundTrips(codec, j)
    ensures first == [Invocation(if isError then onError else onSuccess, Some(response))]
    ensures second == first
  {
    var g := new Globals();
    var w := new WebViewInterface(g);
    var instruction := w.CallJSFunction(codec, "foo", args, Some(onSuccess), Some(onError));
    var key := RequestKey(w.id, g.cntJSCallReqId);
    assert w.jsCallReqIdSuccessCallbackMap[key] == Some(onSuccess);
    assert w.jsCallReqIdErrorCallbackMap[key] == Some(onError);
    CallCarriesRequestId(w.id, g.cntJSCallReqId, "foo", codec.stringify(NormalizeArgs(args)));
    var rid := PeerRequestId(instruction).value;
    assert Quote(rid) == key;
    var reply := JObj(map["reqId" := JStr(rid), "isError" := JBool(isError), "response" := response]);
    assert Get(reply, "reqId") == Some(JStr(rid));
    assert Get(reply, "isError") == Some(JBool(isError));
    assert Get(reply, "response") == Some(response);
    var message := codec.stringify(reply);
    assert RoundTrips(codec, reply);
    assert InboundPayload(codec, message) == reply;
    ResponseSelectsHandler(w.jsCallReqIdSuccessCallbackMap, w.jsCallReqIdErrorCallbackMap,
                           w.id, g.cntJSCallReqId, reply);
    first := w.OnWebViewEvent(codec, behaviour, ReservedEvent, message);
    second := w.OnWebViewEvent(codec, behaviour, ReservedEvent, message);
  }

  /** Calls on two bridges sharing one process: the ids the web views see
      are distinct, because the call counter is process-wide. */
  method IdsAcrossBridges(codec: Codec) returns (first: string, second: string, third: string)
    ensures first == "1#1" && second == "2#2" && third == "1#3"
  {
    var g := new Globals();
    var w1 := new WebViewInterface(g);
    var w2 := new WebViewInterface(g);
    var strArgs := codec.stringify(NormalizeArgs(None));
    var i1 := w1.CallJSFunction(codec, "f", None, None, None);
    assert i1 == CallInstruction(RequestKey(1, 1), "f", strArgs);
    CallCarriesRequestId(1, 1, "f", strArgs);
    first := PeerRequestId(i1).value;
    var i2 := w2.CallJSFunction(codec, "f", None, None, None);
    assert i2 == CallInstruction(RequestKey(2, 2), "f", strArgs);
    CallCarriesRequestId(2, 2, "f", strArgs);
    second := PeerRequestId(i2).value;
    var i3 := w1.CallJSFunction(codec, "f", None, None, None);
    assert i3 == CallInstruction(RequestKey(1, 3), "f", strArgs);
    CallCarriesRequestId(1, 3, "f", strArgs);
    third := PeerRequestId(i3).value;
    SmallRequestIds();
  }

  lemma SmallRequestIds()
    ensures RequestId(1, 1) == "1#1" && RequestId(2, 2) == "2#2" && RequestId(1, 3) == "1#3"
  {
    assert Decimal(1) == "1" && Decimal(2) == "2" && Decimal(3) == "3";
  }

  /** Listeners `a`, `b`, `c` on one event, and `a` returns `false`: only
      `a` runs. */
  method FirstFalseStops(codec: Codec, behaviour: Behaviour, a: Callback, b: Callback, c: Callback, data: string)
    returns (calls: seq<Invocation>)
    requires ReturnsFalse(behaviour, a, InboundPayload(codec, data))
    ensures calls == [Invocation(a, Some(InboundPayload(codec, data)))]
  {
    var g := new Globals();
    var w := new WebViewInterface(g);
    var o := w.On("x", a);
    o := w.On("x", b);
    o := w.On("x", c);
    calls := w.OnWebViewEvent(codec, behaviour, "x", data);
  }

  /** `off` with one callback removes just that one: the others still run,
      in their order. */
  method OffKeepsOthers(codec: Codec, behaviour: Behaviour, a: Callback, b: Callback, c: Callback, data: string)
    returns (calls: seq<Invocation>)
    requires b != a && b != c
    requires !ReturnsFalse(behaviour, a, InboundPayload(codec, data))
    ensures calls == [Invocation(a, Some(InboundPayload(codec, data))), Invocation(c, Some(InboundPayload(codec, data)))]
  {
    var g := new Globals();
    var w := new WebViewInterface(g);
    var o := w.On("x", a);
    o := w.On("x", b);
    o := w.On("x", c);
    var before := w.eventListenerMap["x"];
    assert before == [a, b, c];
    o := w.Off("x", Some(b));
    var after := w.eventListenerMap["x"];
    assert after == Without(before, b);
    WithoutMiddle(a, b, c);
    assert after == [a, c];
    calls := w.OnWebViewEvent(codec, behaviour, "x", data);
    assert calls == Fanout([a, c], InboundPayload(codec, data), behaviour);
    FanoutPair(a, c, InboundPayload(codec, data), behaviour);
  }

  lemma WithoutMiddle(a: Callback, b: Callback, c: Callback)
    requires b != a && b != c
    ensures Without([a, b, c], b) == [a, c]
  {
    assert [a, b, c][1..] == [b, c] && [b, c][1..] == [c];
  }

  lemma FanoutPair(a: Callback, c: Callback, payload: Json, behaviour: Behaviour)
    requires !ReturnsFalse(behaviour, a, payload)
    ensures Fanout([a, c], payload, behaviour) == [Invocation(a, Some(payload)), Invocation(c, Some(payload))]
  {
    assert [a, c][1..] == [c];
  }

  /** `destroy`, repeated, removes only its own bridge from the registry. */
  method DestroyUnregisters() returns (firstRegistered: bool, secondRegistered: bool)
    ensures !firstRegistered && secondRegistered
  {
    var g := new Globals();
    var w1 := new WebViewInterface(g);
    var w2 := new WebViewInterface(g);
    w1.Destroy();
    w1.Destroy();
    firstRegistered := w1.id in g.webViewInterfaceIdMap;
    secondRegistered := w2.id in g.webViewInterfaceIdMap;
  }
}
