/** Clients of the earlier `WebViewInterface`, each on a fresh per-process
    state, proved from the methods' contracts alone. */
module LegacyScenarios {
  import opened Text
  import opened Json
  import opened Protocol
  import opened Legacy

  /** A call followed by the web view's answer, which echoes the request
      number it read: the stored callback runs with the response, whatever
      the error flag says. */
  method CallThenRespond(codec: Codec, behaviour: Behaviour, callback: Callback,
                         args: Option<Json>, isError: bool, response: Json)
    returns (calls: seq<Invocation>)
    requires forall j :: RoundTrips(codec, j)
    ensures calls == [Invocation(callback, Some(response))]
  {
    var g := new Globals();
    var w := new WebViewInterface(g);
    var instruction := w.CallJSFunction(codec, "foo", args, Some(callback));
    var n := g.cntJSCallReqId;
    assert w.jsCallReqIdCallbackMap[Decimal(n)] == Some(callback);
    var echoed := PeerRequestNumber(instruction).value;
    NumberKey(echoed);
    var reply := JObj(map["reqId" := JNum(echoed), "isError" := JBool(isError), "response" := response]);
    assert Get(reply, "reqId") == Some(JNum(n));
    assert Get(reply, "response") == Some(response);
    var message := codec.stringify(reply);
    assert RoundTrips(codec, reply);
    assert InboundPayload(codec, message) == reply;
    calls := w.OnWebViewEvent(codec, behaviour, ReservedEvent, message);
  }

  /** Two bridges in one process share the request counter: their calls
      carry the numbers 1 and 2. */
  method NumbersAcrossBridges(codec: Codec) returns (first: nat, second: nat)
    ensures first == 1 && second == 2
  {
    var g := new Globals();
    var w1 := new WebViewInterface(g);
    var w2 := new WebViewInterface(g);
    var strArgs := codec.stringify(NormalizeArgs(None));
    var i1 := w1.CallJSFunction(codec, "f", None, None);
    assert i1 == CallInstruction(1, "f", strArgs);
    first := PeerRequestNumber(i1).value;
    var i2 := w2.CallJSFunction(codec, "f", None, None);
    assert i2 == CallInstruction(2, "f", strArgs);
    second := PeerRequestNumber(i2).value;
  }
}
