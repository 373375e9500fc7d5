# WebView interface bridge — Dafny model

This project models the platform-independent core of `nativescript-webview-interface`. That core is the
`WebViewInterface` base class, which runs a message bridge between a NativeScript app and the web page in
its WebView. The model covers both revisions of the class.

- **Current revision** (`publish/index-common.js`), module `Bridge`:
  - per-process counters and an id → instance registry (`Globals`);
  - per instance, an event-listener map and two handler maps, one for success and one for error;
  - handler maps keyed by `"<bridgeId>#<n>"`;
  - `on`, `off`, `emit`, `callJSFunction`, `_onWebViewEvent` and `destroy`.
- **Earlier revision** (`index-common.js`), module `Legacy`:
  - one callback map keyed by a bare process-wide request number;
  - an `unloaded` hook;
  - string payloads quoted by hand.

Shared pieces:
- `Text`: decimal rendering, quoting, reading up to a delimiter.
- `Json`: JSON values, JavaScript truthiness, property reads, string conversion, and `parseJSON` with its
  `|| data` fallback.
- `Protocol`: the reserved `_jsCallResponse` name, the listener fan-out, the filter used by `off`, argument
  normalisation, and the shape of the event instruction.

JavaScript behaviour is modelled as follows:
- `JSON.parse` and `JSON.stringify` are a `Codec` passed as a parameter. Where a property depends on
  them, the contract states the RFC 8259 round trip `parse(stringify(v)) == v` as a precondition.
- Callbacks are opaque identities.
- A listener's return value comes from a `Behaviour` parameter. `undefined` is `None`.
- Script text that the source hands to `_executeJS` is returned by the method instead.
- The web view's side is modelled only as far as it reads that text back (`PeerEvent`,
  `Bridge.PeerRequestId`, `Legacy.PeerRequestNumber`).
- The `null` maps after `destroy` or `unloaded` are a `destroyed` or `unloaded` flag with emptied maps.
  Operations that would dereference a `null` map in JavaScript require the flag to be unset.

Three behaviours of the code to note:
- Calls after `destroy` are not no-ops. `on`, `off`, `callJSFunction` and `_onWebViewEvent` dereference a
  `null` map, so they have a precondition. `emit` reads no map and has none.
- A pending entry is never removed. A repeated answer runs its handler again
  (`BridgeScenarios.CallThenRespond`).
- Only the current revision serialises every emitted payload. The earlier one quotes non-objects by hand
  (see Findings).

## Model

| member | source | states |
|---|---|---|
| `Text.DecimalRoundTrip` | publish/index-common.js:73 | the decimal text of a counter reads back as that counter |
| `Text.DecimalInjective` | index-common.js:63-64 | distinct request numbers have distinct property keys |
| `Json.ParseJSON` | publish/index-common.js:4-12 | a parse failure yields exactly `false`; a successful parse yields the parsed value |
| `Json.InboundPayload` | publish/index-common.js:83 | a truthy parse is routed as the parsed value; otherwise the raw text is routed; the routed value is falsy only when the text is empty |
| `Json.FalsyPayloadFallsBack` | index-common.js:72 | malformed text, and valid JSON `0`, `false`, `""` or `null`, reach handlers as the raw text |
| `Protocol.FanoutRunsInOrder` | publish/index-common.js:99-107 | listeners run in registration order, each with the payload; only the last one run can have returned exactly `false`, and stopping early means it did |
| `Protocol.Fanout` | publish/index-common.js:100-106 | a dispatch runs at most one invocation per listener, and the first listener, if any, always runs with the payload |
| `Protocol.Without` | publish/index-common.js:137-140 | `off` with a callback removes every identical entry and keeps every other entry (same multiset minus that callback) |
| `Protocol.WithoutConcat` | publish/index-common.js:138-140 | the filter keeps the remaining listeners in their order |
| `Protocol.NormalizeArgs` | publish/index-common.js:65-70 | falsy arguments become `[]`; array-likes pass unchanged; any other value `v` becomes `[v]`; the result is always array-like |
| `Protocol.NormalizeIdempotent` | index-common.js:56-61 | normalising normalised arguments changes nothing |
| `Protocol.EmitInstructionDecodes` | publish/index-common.js:58 | an event name free of quotes, backslashes and line breaks, and the payload text after it, are read back intact from the event instruction |
| `Bridge.RequestIdInjective` | publish/index-common.js:73 | `<bridgeId>#<n>` determines both the bridge id and the call number |
| `Bridge.RequestKeyInjective` | publish/index-common.js:73 | two quoted keys are equal only for the same bridge and call number |
| `Bridge.RequestKeyIsLiteral` | publish/index-common.js:73 | the key is a string literal in double quotes, with no quote inside, whose contents are `<bridgeId>#<n>` |
| `Bridge.CallInstruction` | publish/index-common.js:76 | when the key is such a literal, the web view reads its contents as the call's first argument |
| `Bridge.CallCarriesRequestId` | publish/index-common.js:73-76 | the web view reads the unquoted id `<bridgeId>#<n>` from the call instruction |
| `Bridge.PrepareEmitEventJSCall` | publish/index-common.js:56-59 | for an event name free of quotes, backslashes and line breaks, the web view reads back the name and the serialised payload (`undefined` for `undefined`) |
| `Bridge.EmitCarriesPayload` | publish/index-common.js:56-59 | every payload, including strings that contain quotes, reaches the web view as text that parses back to the value |
| `Bridge.ResolveResponse` | publish/index-common.js:86-98 | at most one handler runs, and with `response`; an id with no entry in the map that `isError` selects runs nothing; an answer without `reqId` runs nothing |
| `Bridge.ResponseSelectsHandler` | publish/index-common.js:87-98 | an answer for a stored call runs the error handler iff `isError` is truthy, else the success handler, if that handler is defined |
| `Bridge.Globals.constructor` | publish/index-common.js:201-203 | both counters start at 0 and the registry is empty |
| `Bridge.WebViewInterface.constructor` | publish/index-common.js:17-51 | the new id is the old `cntWebViewId` + 1, is not yet registered, and is registered for this instance; all maps start empty |
| `Bridge.WebViewInterface.PrepareJSFunctionCall` | publish/index-common.js:64-77 | bumps the shared call counter; stores both handlers under a key no earlier call in the process used; the instruction carries that key, the name and the normalised arguments |
| `Bridge.WebViewInterface.CallJSFunction` | publish/index-common.js:162-165 | hands the prepared call instruction to the transport, with the same state change |
| `Bridge.WebViewInterface.Emit` | publish/index-common.js:151-154 | hands the event instruction to the transport; it does not require that the bridge is still live |
| `Bridge.WebViewInterface.OnWebViewEvent` | publish/index-common.js:82-108 | `_jsCallResponse` resolves a pending call; any other name fans out to its listeners; no map changes |
| `Bridge.WebViewInterface.On` | publish/index-common.js:115-121 | the reserved name throws and changes nothing; any other name gets the callback appended, and its list is created if absent |
| `Bridge.WebViewInterface.Off` | publish/index-common.js:128-144 | the reserved name throws; an absent or empty list is left alone; with a callback the list is filtered; without one the entry is deleted |
| `Bridge.WebViewInterface.Destroy` | publish/index-common.js:171-196 | drops the three maps and this id's registry entry; it has no precondition, so it can run again |
| `BridgeScenarios.CallThenRespond` | publish/index-common.js:72-98 | a call and an answer echoing its id: the error handler runs iff `isError`, else the success handler; a repeated answer runs it again |
| `BridgeScenarios.IdsAcrossBridges` | publish/index-common.js:72-76 | on two bridges the web views see ids `1#1`, `2#2`, `1#3` |
| `BridgeScenarios.FirstFalseStops` | publish/index-common.js:99-107 | with listeners a, b, c where a returns `false`, only a runs |
| `BridgeScenarios.OffKeepsOthers` | publish/index-common.js:133-143 | removing b from a, b, c leaves a and c running, in that order |
| `BridgeScenarios.DestroyUnregisters` | publish/index-common.js:171-196 | destroying one bridge twice unregisters it and leaves the other registered |
| `Legacy.CallInstruction` | index-common.js:63-65 | the web view reads the request number back from the call instruction |
| `Legacy.NumberKey` | index-common.js:63-77 | an echoed number converts to the property key its callback is stored under |
| `Legacy.PrepareEmitEventJSCall` | index-common.js:47-50 | for an event name free of quotes, backslashes and line breaks, the web view receives null, arrays and objects serialised, and anything else as its string form between quotes (`"undefined"` for `undefined`) |
| `Legacy.HandQuotingTruncates` | index-common.js:48 | when a string payload with no backslash or line break contains `"`, the string literal that opens its hand-quoted form ends early: it holds a different, shorter string, and the rest is parsed as script code |
| `Legacy.HandQuotingExample` | index-common.js:48 | emitting `a"b` sends `"a"b"`, whose opening literal holds just `a`, with `b"` left over as script code |
| `Legacy.ResolveResponse` | index-common.js:75-80 | at most one callback runs, and with `response`; an id with no stored entry runs nothing |
| `Legacy.ResponseSelectsCallback` | index-common.js:76-79 | an answer runs the callback stored under the string form of its `reqId`, if that callback is defined, with `response`; otherwise nothing runs |
| `Legacy.ResolveIgnoresErrorFlag` | index-common.js:75-80 | the answer's `isError` has no effect |
| `Legacy.NumberAndStringIdsAgree` | index-common.js:76-77 | `reqId` given as the number `n` or the string `"n"` finds the same callback |
| `Legacy.Globals.constructor` | index-common.js:129 | the request counter starts at 0 |
| `Legacy.WebViewInterface.constructor` | index-common.js:17-42 | both maps start empty |
| `Legacy.WebViewInterface.Unloaded` | index-common.js:38-41 | the `unloaded` hook drops both maps |
| `Legacy.WebViewInterface.PrepareJSFunctionCall` | index-common.js:55-66 | the request number is the old counter + 1 and was never used before, so its key holds no pending callback; the callback is stored under that decimal key; the instruction carries the number |
| `Legacy.WebViewInterface.CallJSFunction` | index-common.js:121-124 | hands the prepared call instruction to the transport, with the same state change |
| `Legacy.WebViewInterface.Emit` | index-common.js:110-113 | hands the event instruction to the transport |
| `Legacy.WebViewInterface.OnWebViewEvent` | index-common.js:71-90 | `_jsCallResponse` runs the stored callback; any other name fans out to its listeners; no map changes |
| `Legacy.WebViewInterface.On` | index-common.js:97-103 | the reserved name throws and changes nothing; any other name gets the callback appended |
| `LegacyScenarios.CallThenRespond` | index-common.js:63-80 | a call and an answer echoing its number run the stored callback with the response, whatever the error flag |
| `LegacyScenarios.NumbersAcrossBridges` | index-common.js:55-66 | two bridges share one counter: their calls carry 1 and 2 |

## Left out

- The platform adapters, `index.android.js` and `index.ios.js`: Java interop, WebView settings, load events, the
  `js2ios:` URL interception and the asynchronous fetch of iOS payloads. They only deliver `(eventName, data)` to
  `_onWebViewEvent` and run script text.
- `_executeJS`: the model returns the script text instead of running it.
- The `webView` field and the `webView.src = ''` reset in `destroy`. These act on an external view object.
- The platform `_destroy` hook. It is optional and platform-specific.
- The registration `webView.on('unloaded', …)`. Only the hook's body, `Legacy.WebViewInterface.Unloaded`, is modelled.
- The JSON parser and serialiser. They are a `Codec` parameter. Their RFC 8259 round trip is a precondition
  wherever a property needs it.
- Numbers other than integers. JavaScript's exponent notation for integers of 10^21 and above is not modelled.
- Counter precision: the counters are unbounded `nat`. JavaScript numbers stop incrementing past 2^53.
- Reentrancy: a listener that calls `on` or `off` during a dispatch is not modelled. `on` pushes into the array
  being iterated.
- Listener side effects and thrown exceptions. A listener's return value depends only on the listener and the
  payload (`Behaviour`).
- Arguments and payloads that are not JSON: functions, and `undefined` inside arrays.
- `on` with a callback that is not a function.
- Property reads of array indices: the core never reads them.
- `Bridge.WebViewInterface.On`: an event name that names an `Object.prototype` property (`constructor`, `toString`,
  `__proto__`, …) is treated as an absent key, and the callback is appended. JavaScript finds the inherited
  property at publish/index-common.js:120 and throws a `TypeError` on its missing `push`.
- `Bridge.WebViewInterface.Off`: such a name is treated as an absent key, so nothing happens. With a callback,
  JavaScript can find an inherited property at publish/index-common.js:133-138 and throw a `TypeError` on its
  missing `filter`.
- `Bridge.WebViewInterface.OnWebViewEvent`: such a name is treated as an absent key, so no listener runs. JavaScript
  iterates the inherited property at publish/index-common.js:100-102 and can throw a `TypeError`, for example
  `constructor` has length 1 and no element to call.
- `Legacy.WebViewInterface.On`: such a name is treated as an absent key, and the callback is appended. JavaScript
  throws a `TypeError` at index-common.js:102, as in the current revision.
- `Legacy.WebViewInterface.OnWebViewEvent`: such a name, and a `reqId` that names such a property, are treated as
  absent keys. JavaScript finds the inherited property at index-common.js:77 and 82, and calls it or throws a
  `TypeError`. The current revision's response lookup quotes the id, so it does not hit inherited properties.
- The web view's reading of the script text (`Protocol.PeerEvent`, `Legacy.LiteralRead`) stops at the next `"` and
  does not interpret backslash escapes or line breaks. The properties about it assume text without them
  (`Protocol.PlainName`, `Protocol.NoEscapes`). JavaScript lets a name ending in `\` swallow its closing quote.
- `Json.Get`: a string's `length` counts the characters of the model's string, where JavaScript counts UTF-16 code
  units. The core reads `length` only on call arguments that are objects (publish/index-common.js:68).
- Operations after `destroy` or `unloaded`: they have a precondition, because JavaScript would throw a
  `TypeError` on the `null` maps.

## Findings

| source | as written | input that shows it | evidently intended | confidence | as-written member | corrected member |
|---|---|---|---|---|---|---|
| index-common.js:48 | non-object payloads are wrapped in `"` without escaping | `emit("x", 'a"b')` produces `window.nsWebViewInterface._onNativeEvent("x","a"b");`: the string literal closes after `a` and `b"` follows as script code, so the instruction fails to parse; a crafted string such as `"+f()+"` injects code | every payload serialised as a proper JSON string; the later revision does this (publish/index-common.js:57) | not executed | `Legacy.HandQuotingTruncates` | `Bridge.EmitCarriesPayload` |
