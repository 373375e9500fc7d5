/** The earlier `WebViewInterface` (index-common.js): one callback per call,
    keyed by a bare process-wide request number; no `off`, no `destroy`, no
    registry; an `unloaded` hook that drops both maps; and event payloads
    that are quoted by hand unless they are objects. */
module Legacy {
  import opened Text
  import opened Json
  import opened Protocol

  /** `window.nsWebViewInterface._callJSFunction(<n>,"<name>",<args>);`.
      The web view reads the request number back from it. */
  function CallInstruction(reqId: nat, functionName: string, strArgs: string): (r: string)
    ensures PeerRequestNumber(r) == Some(reqId)
  {
    var after := "\"" + functionName + "\"," + strArgs + ");";
    NumberArgumentReads(reqId, after);
    CallEntry + Decimal(reqId) + "," + after
  }

  /** How the web view reads the first argument of a call instruction: the
      number literal before the first comma. */
  function PeerRequestNumber(instruction: string): Option<nat>
  {
    if |instruction| < |CallEntry| || instruction[..|CallEntry|] != CallEntry then None
    else Some(DecimalValue(TakeUntil(instruction[|CallEntry|..], ',')))
  }

  /** The number literal that opens the arguments is read up to the comma. */
  lemma NumberArgumentReads(reqId: nat, after: string)
    ensures PeerRequestNumber(CallEntry + Decimal(reqId) + "," + after) == Some(reqId)
  {
    var digits := Decimal(reqId);
    var instruction := CallEntry + digits + "," + after;
    assert instruction == CallEntry + (digits + [','] + after);
    assert instruction[|CallEntry|..] == digits + [','] + after;
    assert ',' !in digits;
    TakeUntilSplit(digits, ',', after);
    DecimalRoundTrip(reqId);
  }

  /** The lookup converts an echoed request number to the very key the
      callback is stored under (a property key is the number's string form). */
  lemma NumberKey(reqId: nat)
    ensures JsString(Some(JNum(reqId))) == Decimal(reqId)
  {
  }

  /** `typeof data === 'object'`: null, arrays and objects. */
  predicate IsObjectTyped(data: Option<Json>)
  {
    data.Some? && (data.value.JNull? || data.value.JArr? || data.value.JObj?)
  }

  /** `_prepareEmitEventJSCall` of this revision: objects (and null) go
      through `JSON.stringify`; anything else is put between double quotes
      as it is, without escaping. For a plain event name the web view reads
      back the serialised value for null, arrays and objects, and the
      value's string form between quotes for everything else (`"undefined"`
      for `undefined`). */
  function PrepareEmitEventJSCall(codec: Codec, eventName: string, data: Option<Json>): (r: string)
    ensures PlainName(eventName) ==>
              PeerEvent(r) == Some((eventName, if IsObjectTyped(data) then codec.stringify(data.value)
                                               else Quote(JsString(data))))
    ensures PlainName(eventName) && data == None ==> PeerEvent(r) == Some((eventName, "\"undefined\""))
  {
    var payload := if IsObjectTyped(data) then codec.stringify(data.value) else Quote(JsString(data));
    assert data == None ==> payload == Quote("undefined") == "\"undefined\"";
    EmitInstructionDecodes(eventName, payload);
    EmitInstruction(eventName, payload)
  }

  /** The web view's reading of the string literal that opens a hand-quoted
      payload: from the opening quote up to the next quote. This is
      JavaScript's reading for text without escapes (`NoEscapes`). */
  function LiteralRead(payloadText: string): string
  {
    if payloadText == [] then [] else TakeUntil(payloadText[1..], '"')
  }

  /** As written, a string payload that contains a double quote does not
      reach the web view: the script carries it as `Quote(s)`
      (`PrepareEmitEventJSCall`), and the literal that opens there ends at
      the first embedded quote, so it holds a different, shorter string and
      the rest of the payload is parsed as script code. */
  lemma {:induction false} HandQuotingTruncates(s: string)
    requires '"' in s && NoEscapes(s)
    ensures LiteralRead(Quote(s)) != s
    ensures |LiteralRead(Quote(s))| + 2 < |Quote(s)|
  {
    var q := Quote(s);
    assert q[1..] == s + "\"";
    var i :| 0 <= i < |s| && s[i] == '"';
    assert q[1..][i] == '"';
    TakeUntilBound(q[1..], '"', i);
  }

  /** A concrete instance: emitting the string `a"b` puts the text
      `"a"b"` into the script; the literal that opens it holds just `a`, and
      `b"` follows as script code. */
  lemma HandQuotingExample(codec: Codec)
    ensures PeerEvent(PrepareEmitEventJSCall(codec, "x", Some(JStr("a\"b")))) == Some(("x", "\"a\"b\""))
    ensures LiteralRead("\"a\"b\"") == "a"
  {
    assert PlainName("x");
    assert JsString(Some(JStr("a\"b"))) == "a\"b";
    assert Quote("a\"b") == "\"a\"b\"";
    assert "\"a\"b\""[1..] == ['a'] + ['"'] + "b\"";
    TakeUntilSplit("a", '"', "b\"");
  }

  /** The callback a `_jsCallResponse` message selects: the one stored under
      `oData.reqId` (as a property key), whatever `isError` says; it is
      invoked with `response`. */
  function ResolveResponse(callbacks: map<string, Option<Callback>>, oData: Json): (r: seq<Invocation>)
    ensures |r| <= 1
    ensures r != [] ==> r[0].arg == Get(oData, "response")
    ensures JsString(Get(oData, "reqId")) !in callbacks ==> r == []
  {
    var reqId := JsString(Get(oData, "reqId"));
    if reqId in callbacks && callbacks[reqId].Some? then [Invocation(callbacks[reqId].value, Get(oData, "response"))]
    else []
  }

  /** An answer runs the callback stored under the string form of its
      `reqId`, if one is stored and defined, with its `response`; an answer
      for no stored call runs nothing. */
  lemma ResponseSelectsCallback(callbacks: map<string, Option<Callback>>, oData: Json)
    ensures var k := JsString(Get(oData, "reqId"));
            && (k in callbacks ==>
                  ResolveResponse(callbacks, oData)
                  == if callbacks[k].Some? then [Invocation(callbacks[k].value, Get(oData, "response"))] else [])
            && (k !in callbacks ==> ResolveResponse(callbacks, oData) == [])
  {
  }

  /** The error flag plays no part in this revision. */
  lemma ResolveIgnoresErrorFlag(callbacks: map<string, Option<Callback>>, fields: map<string, Json>, flag: Json)
    ensures ResolveResponse(callbacks, JObj(fields["isError" := flag]))
            == ResolveResponse(callbacks, JObj(fields - {"isError"}))
  {
    var withFlag, without := JObj(fields["isError" := flag]), JObj(fields - {"isError"});
    assert Get(withFlag, "reqId") == Get(without, "reqId");
    assert Get(withFlag, "response") == Get(without, "response");
  }

  /** An answer naming the request number as a number or as its decimal
      string finds the same callback. */
  lemma NumberAndStringIdsAgree(callbacks: map<string, Option<Callback>>, fields: map<string, Json>, n: nat)
    ensures ResolveResponse(callbacks, JObj(fields["reqId" := JNum(n)]))
            == ResolveResponse(callbacks, JObj(fields["reqId" := JStr(Decimal(n))]))
  {
    var asNumber, asString := JObj(fields["reqId" := JNum(n)]), JObj(fields["reqId" := JStr(Decimal(n))]);
    assert JsString(Get(asNumber, "reqId")) == Decimal(n) == JsString(Get(asString, "reqId"));
    assert Get(asNumber, "response") == Get(asString, "response");
  }

  /** Per-process state: the one static counter of this revision. */
  class Globals {
    var cntJSCallReqId: nat
    /** Every request number handed out so far, by any instance. */
    ghost var issued: set<nat>

    ghost predicate Valid()
      reads this
    {
      forall n :: n in issued ==> 1 <= n <= cntJSCallReqId
    }

    constructor ()
      ensures Valid() && cntJSCallReqId == 0 && issued == {}
    {
      cntJSCallReqId := 0;
      issued := {};
    }
  }

  class WebViewInterface {
    const globals: Globals
    var eventListenerMap: map<string, seq<Callback>>
    var jsCallReqIdCallbackMap: map<string, Option<Callback>>
    /** After the web view's `unloaded` event both maps are `null`. */
    var unloaded: bool

    ghost predicate Valid()
      reads this, globals
    {
      && globals.Valid()
      && ReservedEvent !in eventListenerMap
      && (forall n: nat :: Decimal(n) in jsCallReqIdCallbackMap ==> n in globals.issued)
      && (unloaded ==> eventListenerMap == map[] && jsCallReqIdCallbackMap == map[])
    }

    /** `new WebViewInterface(webView)`: two empty maps. */
    constructor (g: Globals)
      requires g.Valid()
      ensures Valid() && globals == g && !unloaded
      ensures eventListenerMap == map[] && jsCallReqIdCallbackMap == map[]
    {
      globals := g;
      eventListenerMap := map[];
      jsCallReqIdCallbackMap := map[];
      unloaded := false;
    }

    /** The closure registered for the web view's `unloaded` event. */
    method Unloaded()
      modifies this`eventListenerMap, this`jsCallReqIdCallbackMap, this`unloaded
      ensures unloaded && eventListenerMap == map[] && jsCallReqIdCallbackMap == map[]
      ensures old(Valid()) ==> Valid()
    {
      eventListenerMap := map[];
      jsCallReqIdCallbackMap := map[];
      unloaded := true;
    }

    /** `_prepareJSFunctionCall`: takes the next process-wide request
        number, which no call has used before, stores the callback under it,
        and returns the call instruction. */
    method PrepareJSFunctionCall(codec: Codec, functionName: string, args: Option<Json>, callback: Option<Callback>)
      returns (instruction: string)
      requires Valid() && !unloaded
      modifies this`jsCallReqIdCallbackMap, globals`cntJSCallReqId, globals`issued
      ensures Valid()
      ensures var reqId := globals.cntJSCallReqId;
              && reqId == old(globals.cntJSCallReqId) + 1
              && reqId !in old(globals.issued)
              && Decimal(reqId) !in old(jsCallReqIdCallbackMap)
              && globals.issued == old(globals.issued) + {reqId}
              && jsCallReqIdCallbackMap == old(jsCallReqIdCallbackMap)[Decimal(reqId) := callback]
              && instruction == CallInstruction(reqId, functionName, codec.stringify(NormalizeArgs(args)))
    {
      var arrArgs := NormalizeArgs(args);
      var strArgs := codec.stringify(arrArgs);
      globals.cntJSCallReqId := globals.cntJSCallReqId + 1;
      var reqId := globals.cntJSCallReqId;
      globals.issued := globals.issued + {reqId};
      jsCallReqIdCallbackMap := jsCallReqIdCallbackMap[Decimal(reqId) := callback];
      forall n: nat | Decimal(n) in jsCallReqIdCallbackMap
        ensures n in globals.issued
      {
        if Decimal(n) == Decimal(reqId) {
          DecimalInjective(n, reqId);
        }
      }
      instruction := CallInstruction(reqId, functionName, strArgs);
    }

    /** `callJSFunction`: prepares the call and hands its instruction to the
        transport (returned here). */
    method CallJSFunction(codec: Codec, functionName: string, args: Option<Json>, callback: Option<Callback>)
      returns (instruction: string)
      requires Valid() && !unloaded
      modifies this`jsCallReqIdCallbackMap, globals`cntJSCallReqId, globals`issued
      ensures Valid()
      ensures var reqId := globals.cntJSCallReqId;
              && reqId == old(globals.cntJSCallReqId) + 1
              && reqId !in old(globals.issued)
              && Decimal(reqId) !in old(jsCallReqIdCallbackMap)
              && globals.issued == old(globals.issued) + {reqId}
              && jsCallReqIdCallbackMap == old(jsCallReqIdCallbackMap)[Decimal(reqId) := callback]
              && instruction == CallInstruction(reqId, functionName, codec.stringify(NormalizeArgs(args)))
    {
      instruction := PrepareJSFunctionCall(codec, functionName, args, callback);
    }

    /** `emit`: hands the event instruction to the transport (returned here). */
    method Emit(codec: Codec, eventName: string, data: Option<Json>) returns (instruction: string)
      ensures instruction == PrepareEmitEventJSCall(codec, eventName, data)
    {
      instruction := PrepareEmitEventJSCall(codec, eventName, data);
    }

    /** `_onWebViewEvent`: the invocations one inbound message causes; it
        modifies nothing (a resolved callback stays stored). */
    method OnWebViewEvent(codec: Codec, behaviour: Behaviour, eventName: string, data: string)
      returns (calls: seq<Invocation>)
      requires !unloaded
      ensures eventName == ReservedEvent ==>
                calls == ResolveResponse(jsCallReqIdCallbackMap, InboundPayload(codec, data))
      ensures eventName != ReservedEvent ==>
                calls == Fanout(ListenersOf(eventListenerMap, eventName), InboundPayload(codec, data), behaviour)
    {
      var oData := InboundPayload(codec, data);
      if eventName == ReservedEvent {
        var reqId := JsString(Get(oData, "reqId"));
        var callback := if reqId in jsCallReqIdCallbackMap then jsCallReqIdCallbackMap[reqId] else None;
        calls := if callback.Some? then [Invocation(callback.value, Get(oData, "response"))] else [];
        assert calls == ResolveResponse(jsCallReqIdCallbackMap, oData);
      } else {
        var lstCallbacks := ListenersOf(eventListenerMap, eventName);
        calls := [];
        var i := 0;
        while i < |lstCallbacks|
          invariant 0 <= i <= |lstCallbacks|
          invariant Fanout(lstCallbacks, oData, behaviour) == calls + Fanout(lstCallbacks[i..], oData, behaviour)
        {
          FanoutStep(lstCallbacks, i, oData, behaviour);
          var retnVal := behaviour(lstCallbacks[i], oData);
          var invocation := Invocation(lstCallbacks[i], Some(oData));
          if retnVal == Some(JBool(false)) {
            calls := calls + [invocation];
            break;
          }
          assert calls + Fanout(lstCallbacks[i..], oData, behaviour)
              == (calls + [invocation]) + Fanout(lstCallbacks[i + 1..], oData, behaviour);
          calls := calls + [invocation];
          i := i + 1;
        }
        assert calls == Fanout(lstCallbacks, oData, behaviour);
      }
    }

    /** `on`: refuses the reserved name; otherwise appends the callback. */
    method On(eventName: string, callback: Callback) returns (outcome: Outcome)
      requires Valid() && !unloaded
      modifies this`eventListenerMap
      ensures Valid()
      ensures eventName == ReservedEvent ==>
                outcome == Thrown(OnReservedMessage) && eventListenerMap == old(eventListenerMap)
      ensures eventName != ReservedEvent ==>
                && outcome == Done
                && eventListenerMap == old(eventListenerMap)[eventName :=
                     ListenersOf(old(eventListenerMap), eventName) + [callback]]
    {
      if eventName == ReservedEvent {
        return Thrown(OnReservedMessage);
      }
      eventListenerMap := eventListenerMap[eventName := ListenersOf(eventListenerMap, eventName) + [callback]];
      outcome := Done;
    }
  }
}
