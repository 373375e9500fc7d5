/** The current `WebViewInterface` (publish/index-common.js): a per-process
    state of counters and an id -> instance registry, and per instance the
    event listeners and the success and error handlers of pending calls,
    keyed by `"<bridgeId>#<n>"`. The transport (`_executeJS`) is not modelled:
    the methods that would hand script text to it return that text. */
module Bridge {
  import opened Text
  import opened Json
  import opened Protocol

  /** The correlation id the web view sees: `<bridgeId>#<n>`. */
  function RequestId(bridgeId: nat, n: nat): string
  {
    Decimal(bridgeId) + "#" + Decimal(n)
  }

  /** The key of the handler maps: the correlation id in double quotes. */
  function RequestKey(bridgeId: nat, n: nat): string
  {
    Quote(RequestId(bridgeId, n))
  }

  /** The key is a JavaScript string literal whose contents are the id
      itself. */
  lemma RequestKeyIsLiteral(bridgeId: nat, n: nat)
    ensures var k := RequestKey(bridgeId, n);
            QuotedLiteral(k) && k[1..|k| - 1] == RequestId(bridgeId, n)
  {
    RequestIdHasNoQuote(bridgeId, n);
  }

  /** A double-quoted string literal with no quote inside. */
  predicate QuotedLiteral(k: string)
  {
    2 <= |k| && k[0] == '"' && k[|k| - 1] == '"' && '"' !in k[1..|k| - 1]
  }

  lemma RequestIdHasNoQuote(bridgeId: nat, n: nat)
    ensures '"' !in RequestId(bridgeId, n)
  {
    var d, e := Decimal(bridgeId), Decimal(n);
    assert RequestId(bridgeId, n) == d + "#" + e;
    forall i | 0 <= i < |d + "#" + e| ensures (d + "#" + e)[i] != '"' {
      if i < |d| {
        assert (d + "#" + e)[i] == d[i];
      } else if i > |d| {
        assert (d + "#" + e)[i] == e[i - |d| - 1];
      }
    }
  }

  /** Correlation ids name their bridge and their call number uniquely:
      the bridge id is what precedes the first `#`, the call number the rest. */
  lemma RequestIdInjective(a: nat, n: nat, b: nat, m: nat)
    requires RequestId(a, n) == RequestId(b, m)
    ensures a == b && n == m
  {
    var da, db := Decimal(a), Decimal(b);
    var s := RequestId(a, n);
    assert s == da + ['#'] + Decimal(n) && s == db + ['#'] + Decimal(m);
    assert '#' !in da && '#' !in db;
    TakeUntilSplit(da, '#', Decimal(n));
    TakeUntilSplit(db, '#', Decimal(m));
    assert da == db;
    assert Decimal(n) == s[|da| + 1..] == Decimal(m);
    DecimalInjective(a, b);
    DecimalInjective(n, m);
  }

  lemma RequestKeyInjective(a: nat, n: nat, b: nat, m: nat)
    requires RequestKey(a, n) == RequestKey(b, m)
    ensures a == b && n == m
  {
    var k := RequestKey(a, n);
    assert RequestId(a, n) == k[1..|k| - 1] == RequestId(b, m);
    RequestIdInjective(a, n, b, m);
  }

  /** `window.nsWebViewInterface._callJSFunction(<key>,"<name>",<args>);`.
      When the key is a quoted literal, the web view reads its contents as
      the first argument. */
  function CallInstruction(reqKey: string, functionName: string, strArgs: string): (r: string)
    ensures QuotedLiteral(reqKey) ==> PeerRequestId(r) == Some(reqKey[1..|reqKey| - 1])
  {
    var after := ",\"" + functionName + "\"," + strArgs + ");";
    QuotedArgumentReads(reqKey, after);
    CallEntry + reqKey + after
  }

  /** The literal that opens the arguments is read up to its closing quote. */
  lemma QuotedArgumentReads(reqKey: string, after: string)
    ensures QuotedLiteral(reqKey) ==> PeerRequestId(CallEntry + reqKey + after) == Some(reqKey[1..|reqKey| - 1])
  {
    if QuotedLiteral(reqKey) {
      var id := reqKey[1..|reqKey| - 1];
      var open := CallEntry + "\"";
      assert reqKey == "\"" + id + "\"";
      assert CallEntry + reqKey + after == open + (id + ['"'] + after);
      TakeUntilSplit(id, '"', after);
    }
  }

  /** How the web view reads the first argument of a call instruction: the
      string literal that opens it. */
  function PeerRequestId(instruction: string): Option<string>
  {
    var open := CallEntry + "\"";
    if |instruction| < |open| || instruction[..|open|] != open then None
    else Some(TakeUntil(instruction[|open|..], '"'))
  }

  /** The call instruction hands the web view the unquoted correlation id. */
  lemma CallCarriesRequestId(bridgeId: nat, n: nat, functionName: string, strArgs: string)
    ensures PeerRequestId(CallInstruction(RequestKey(bridgeId, n), functionName, strArgs))
            == Some(RequestId(bridgeId, n))
  {
    RequestKeyIsLiteral(bridgeId, n);
  }

  /** `_prepareEmitEventJSCall`: every payload goes through `JSON.stringify`. */
  function PrepareEmitEventJSCall(codec: Codec, eventName: string, data: Option<Json>): (r: string)
    ensures PlainName(eventName) ==> PeerEvent(r) == Some((eventName, JsonText(codec, data)))
  {
    EmitInstructionDecodes(eventName, JsonText(codec, data));
    EmitInstruction(eventName, JsonText(codec, data))
  }

  /** A string payload containing quotes reaches the web view intact, and
      so does any other value: the payload expression the web view reads is
      the serialised value, which parses back to the value. */
  lemma EmitCarriesPayload(codec: Codec, eventName: string, d: Json)
    requires PlainName(eventName)
    requires RoundTrips(codec, d)
    ensures PeerEvent(PrepareEmitEventJSCall(codec, eventName, Some(d))).Some?
    ensures var (name, text) := PeerEvent(PrepareEmitEventJSCall(codec, eventName, Some(d))).value;
            name == eventName && codec.parse(text) == Some(d)
  {
  }

  /** The handler a `_jsCallResponse` message selects: from the error map
      when `isError` is truthy, from the success map otherwise, under the
      key `'"' + reqId + '"'`; it is invoked with `response`. */
  function ResolveResponse(success: map<string, Option<Callback>>, error: map<string, Option<Callback>>,
                           oData: Json): (r: seq<Invocation>)
    ensures |r| <= 1
    ensures r != [] ==> r[0].arg == Get(oData, "response")
    ensures var table := if TruthyValue(Get(oData, "isError")) then error else success;
            Quote(JsString(Get(oData, "reqId"))) !in table ==> r == []
    ensures Get(oData, "reqId") == None && ("\"undefined\"" !in success) && ("\"undefined\"" !in error) ==> r == []
  {
    var reqId := Quote(JsString(Get(oData, "reqId")));
    assert Get(oData, "reqId") == None ==> reqId == "\"undefined\"";
    var table := if TruthyValue(Get(oData, "isError")) then error else success;
    if reqId in table && table[reqId].Some? then [Invocation(table[reqId].value, Get(oData, "response"))]
    else []
  }

  /** A response echoing the correlation id of a stored call reaches the
      error handler exactly when `isError` is truthy, and the success
      handler otherwise. */
  lemma ResponseSelectsHandler(success: map<string, Option<Callback>>, error: map<string, Option<Callback>>,
                               bridgeId: nat, n: nat, oData: Json)
    requires Get(oData, "reqId") == Some(JStr(RequestId(bridgeId, n)))
    requires RequestKey(bridgeId, n) in success && RequestKey(bridgeId, n) in error
    ensures var h := if TruthyValue(Get(oData, "isError")) then error[RequestKey(bridgeId, n)]
                     else success[RequestKey(bridgeId, n)];
            ResolveResponse(success, error, oData)
            == if h.Some? then [Invocation(h.value, Get(oData, "response"))] else []
  {
  }

  /** Per-process state: the static counters and registry of the class. */
  class Globals {
    var cntWebViewId: nat
    var cntJSCallReqId: nat
    var webViewInterfaceIdMap: map<nat, WebViewInterface>
    /** Every handler key handed out so far, by any instance. */
    ghost var issued: set<string>

    ghost predicate Valid()
      reads this
    {
      && (forall id :: id in webViewInterfaceIdMap ==>
            webViewInterfaceIdMap[id].id == id && 1 <= id <= cntWebViewId)
      && (forall a: nat, n: nat :: RequestKey(a, n) in issued ==> n <= cntJSCallReqId)
    }

    constructor ()
      ensures Valid()
      ensures cntWebViewId == 0 && cntJSCallReqId == 0
      ensures webViewInterfaceIdMap == map[] && issued == {}
    {
      cntWebViewId, cntJSCallReqId := 0, 0;
      webViewInterfaceIdMap := map[];
      issued := {};
    }
  }

  class WebViewInterface {
    const id: nat
    const globals: Globals
    var eventListenerMap: map<string, seq<Callback>>
    var jsCallReqIdSuccessCallbackMap: map<string, Option<Callback>>
    var jsCallReqIdErrorCallbackMap: map<string, Option<Callback>>
    /** After `destroy` the three maps are `null`. */
    var destroyed: bool

    ghost predicate Valid()
      reads this, globals
    {
      && globals.Valid()
      && 1 <= id <= globals.cntWebViewId
      && ReservedEvent !in eventListenerMap
      && jsCallReqIdSuccessCallbackMap.Keys == jsCallReqIdErrorCallbackMap.Keys
      && jsCallReqIdSuccessCallbackMap.Keys <= globals.issued
      && (destroyed ==> eventListenerMap == map[] && jsCallReqIdSuccessCallbackMap == map[])
    }

    /** `new WebViewInterface(webView)`: the next id, registered under it. */
    constructor (g: Globals)
      requires g.Valid()
      modifies g
      ensures Valid() && globals == g && !destroyed
      ensures id == old(g.cntWebViewId) + 1 && g.cntWebViewId == id
      ensures id !in old(g.webViewInterfaceIdMap)
      ensures g.webViewInterfaceIdMap == old(g.webViewInterfaceIdMap)[id := this]
      ensures g.cntJSCallReqId == old(g.cntJSCallReqId) && g.issued == old(g.issued)
      ensures eventListenerMap == map[]
      ensures jsCallReqIdSuccessCallbackMap == map[] && jsCallReqIdErrorCallbackMap == map[]
    {
      id := g.cntWebViewId + 1;
      globals := g;
      eventListenerMap := map[];
      jsCallReqIdSuccessCallbackMap := map[];
      jsCallReqIdErrorCallbackMap := map[];
      destroyed := false;
      new;
      g.cntWebViewId := id;
      g.webViewInterfaceIdMap := g.webViewInterfaceIdMap[id := this];
    }

    /** `_prepareJSFunctionCall`: takes the next process-wide call number,
        stores both handlers under a key no call has used before, and
        returns the call instruction. */
    method PrepareJSFunctionCall(codec: Codec, functionName: string, args: Option<Json>,
                                 successHandler: Option<Callback>, errorHandler: Option<Callback>)
      returns (instruction: string)
      requires Valid() && !destroyed
      modifies this`jsCallReqIdSuccessCallbackMap, this`jsCallReqIdErrorCallbackMap
      modifies globals`cntJSCallReqId, globals`issued
      ensures Valid()
      ensures globals.cntJSCallReqId == old(globals.cntJSCallReqId) + 1
      ensures var key := RequestKey(id, globals.cntJSCallReqId);
              && key !in old(globals.issued)
              && globals.issued == old(globals.issued) + {key}
              && jsCallReqIdSuccessCallbackMap == old(jsCallReqIdSuccessCallbackMap)[key := successHandler]
              && jsCallReqIdErrorCallbackMap == old(jsCallReqIdErrorCallbackMap)[key := errorHandler]
              && instruction == CallInstruction(key, functionName, codec.stringify(NormalizeArgs(args)))
    {
      var arrArgs := NormalizeArgs(args);
      var strArgs := codec.stringify(arrArgs);
      globals.cntJSCallReqId := globals.cntJSCallReqId + 1;
      var n := globals.cntJSCallReqId;
      var reqId := RequestKey(id, n);
      forall a: nat, m: nat | RequestKey(a, m) == reqId
        ensures m == n
      {
        RequestKeyInjective(a, m, id, n);
      }
      globals.issued := globals.issued + {reqId};
      jsCallReqIdSuccessCallbackMap := jsCallReqIdSuccessCallbackMap[reqId := successHandler];
      jsCallReqIdErrorCallbackMap := jsCallReqIdErrorCallbackMap[reqId := errorHandler];
      instruction := CallInstruction(reqId, functionName, strArgs);
    }

    /** `callJSFunction`: prepares the call and hands its instruction to the
        transport (returned here). */
    method CallJSFunction(codec: Codec, functionName: string, args: Option<Json>,
                          successHandler: Option<Callback>, errorHandler: Option<Callback>)
      returns (instruction: string)
      requires Valid() && !destroyed
      modifies this`jsCallReqIdSuccessCallbackMap, this`jsCallReqIdErrorCallbackMap
      modifies globals`cntJSCallReqId, globals`issued
      ensures Valid()
      ensures globals.cntJSCallReqId == old(globals.cntJSCallReqId) + 1
      ensures var key := RequestKey(id, globals.cntJSCallReqId);
              && key !in old(globals.issued)
              && globals.issued == old(globals.issued) + {key}
              && jsCallReqIdSuccessCallbackMap == old(jsCallReqIdSuccessCallbackMap)[key := successHandler]
              && jsCallReqIdErrorCallbackMap == old(jsCallReqIdErrorCallbackMap)[key := errorHandler]
              && instruction == CallInstruction(key, functionName, codec.stringify(NormalizeArgs(args)))
    {
      instruction := PrepareJSFunctionCall(codec, functionName, args, successHandler, errorHandler);
    }

    /** `emit`: hands the event instruction to the transport (returned
        here). It reads no map, so it also runs after `destroy`. */
    method Emit(codec: Codec, eventName: string, data: Option<Json>) returns (instruction: string)
      ensures instruction == PrepareEmitEventJSCall(codec, eventName, data)
    {
      instruction := PrepareEmitEventJSCall(codec, eventName, data);
    }

    /** `_onWebViewEvent`: the invocations one inbound message causes. A
        `_jsCallResponse` resolves a pending call (and removes nothing);
        any other event fans out to its listeners. Nothing is modified. */
    method OnWebViewEvent(codec: Codec, behaviour: Behaviour, eventName: string, data: string)
      returns (calls: seq<Invocation>)
      requires !destroyed
      ensures eventName == ReservedEvent ==>
                calls == ResolveResponse(jsCallReqIdSuccessCallbackMap, jsCallReqIdErrorCallbackMap, InboundPayload(codec, data))
      ensures eventName != ReservedEvent ==>
                calls == Fanout(ListenersOf(eventListenerMap, eventName), InboundPayload(codec, data), behaviour)
    {
      var oData := InboundPayload(codec, data);
      if eventName == ReservedEvent {
        var reqId := Quote(JsString(Get(oData, "reqId")));
        var callback: Option<Callback>;
        if TruthyValue(Get(oData, "isError")) {
          callback := if reqId in jsCallReqIdErrorCallbackMap then jsCallReqIdErrorCallbackMap[reqId] else None;
        } else {
          callback := if reqId in jsCallReqIdSuccessCallbackMap then jsCallReqIdSuccessCallbackMap[reqId] else None;
        }
        calls := if callback.Some? then [Invocation(callback.value, Get(oData, "response"))] else [];
        assert calls == ResolveResponse(jsCallReqIdSuccessCallbackMap, jsCallReqIdErrorCallbackMap, oData);
      } else {
        var lstCallbacks := ListenersOf(eventListenerMap, eventName);
        calls := [];
        var i := 0;
        while i < |lstCallbacks|
          invariant 0 <= i <= |lstCallbacks|
          invariant Fanout(lstCallbacks, oData, behaviour) == calls + Fanout(lstCallbacks[i..], oData, behaviour)
        {
          FanoutStep(lstCallbacks, i, oData, behaviour);
          var retnVal := behaviour(lstCallbacks[i], oData);
          var invocation := Invocation(lstCallbacks[i], Some(oData));
          if retnVal == Some(JBool(false)) {
            calls := calls + [invocation];
            break;
          }
          assert calls + Fanout(lstCallbacks[i..], oData, behaviour)
              == (calls + [invocation]) + Fanout(lstCallbacks[i + 1..], oData, behaviour);
          calls := calls + [invocation];
          i := i + 1;
        }
        assert calls == Fanout(lstCallbacks, oData, behaviour);
      }
    }

    /** `on`: refuses the reserved name; otherwise appends the callback to
        the event's list, creating the list when absent. */
    method On(eventName: string, callback: Callback) returns (outcome: Outcome)
      requires Valid() && !destroyed
      modifies this`eventListenerMap
      ensures Valid()
      ensures eventName == ReservedEvent ==>
                outcome == Thrown(OnReservedMessage) && eventListenerMap == old(eventListenerMap)
      ensures eventName != ReservedEvent ==>
                && outcome == Done
                && eventListenerMap == old(eventListenerMap)[eventName :=
                     ListenersOf(old(eventListenerMap), eventName) + [callback]]
    {
      if eventName == ReservedEvent {
        return Thrown(OnReservedMessage);
      }
      eventListenerMap := eventListenerMap[eventName := ListenersOf(eventListenerMap, eventName) + [callback]];
      outcome := Done;
    }

    /** `off`: refuses the reserved name; does nothing when the event has no
        listeners; with a callback, removes every entry identical to it;
        without one, deletes the event's entry. */
    method Off(eventName: string, callback: Option<Callback>) returns (outcome: Outcome)
      requires Valid() && !destroyed
      modifies this`eventListenerMap
      ensures Valid()
      ensures eventName == ReservedEvent ==>
                outcome == Thrown(OffReservedMessage) && eventListenerMap == old(eventListenerMap)
      ensures eventName != ReservedEvent ==> outcome == Done
      ensures eventName != ReservedEvent && ListenersOf(old(eventListenerMap), eventName) == [] ==>
                eventListenerMap == old(eventListenerMap)
      ensures eventName != ReservedEvent && ListenersOf(old(eventListenerMap), eventName) != [] ==>
                eventListenerMap == if callback.Some?
                                    then old(eventListenerMap)[eventName :=
                                           Without(old(eventListenerMap)[eventName], callback.value)]
                                    else old(eventListenerMap) - {eventName}
    {
      if eventName == ReservedEvent {
        return Thrown(OffReservedMessage);
      }
      outcome := Done;
      if eventName !in eventListenerMap || |eventListenerMap[eventName]| == 0 {
        return;
      }
      if callback.Some? {
        eventListenerMap := eventListenerMap[eventName := Without(eventListenerMap[eventName], callback.value)];
      } else {
        eventListenerMap := eventListenerMap - {eventName};
      }
    }

    /** `destroy`: drops the three maps and the registry entry of this id.
        It has no precondition, so it can be repeated. */
    method Destroy()
      modifies this`eventListenerMap, this`jsCallReqIdSuccessCallbackMap
      modifies this`jsCallReqIdErrorCallbackMap, this`destroyed, globals`webViewInterfaceIdMap
      ensures destroyed
      ensures eventListenerMap == map[]
      ensures jsCallReqIdSuccessCallbackMap == map[] && jsCallReqIdErrorCallbackMap == map[]
      ensures globals.webViewInterfaceIdMap == old(globals.webViewInterfaceIdMap) - {id}
      ensures old(Valid()) ==> Valid()
    {
      eventListenerMap := map[];
      jsCallReqIdSuccessCallbackMap := map[];
      jsCallReqIdErrorCallbackMap := map[];
      destroyed := true;
      globals.webViewInterfaceIdMap := globals.webViewInterfaceIdMap - {id};
    }
  }
}
