/** What both revisions of `WebViewInterface` share: the reserved response
    event, callbacks as opaque identities, the listener fan-out with its
    stop-at-`false` rule, the filter behind `off`, the normalisation of call
    arguments, and the shape of the script text handed to the web view. */
module Protocol {
  import opened Text
  import opened Json

  /** The event name the web view uses to answer a function call. */
  const ReservedEvent: string := "_jsCallResponse"

  const OnReservedMessage: string :=
    "_jsCallResponse eventName is reserved for internal use. You cannot attach listeners to it."
  const OffReservedMessage: string :=
    "_jsCallResponse eventName is reserved for internal use. You cannot deattach listeners to it."

  /** A JavaScript function passed in by the application, known only by its
      identity (`===`). */
  type Callback = nat

  /** One invocation of a callback with one argument (`None`: `undefined`). */
  datatype Invocation = Invocation(callee: Callback, arg: Option<Json>)

  /** What each listener returns when called with a payload. Listeners are
      taken to be free of effects on the bridge. */
  type Behaviour = (Callback, Json) -> Option<Json>

  /** Completion of `on` / `off`: normal, or an `Error` thrown with a message. */
  datatype Outcome = Done | Thrown(message: string)

  /** The listener stops the fan-out only when it returns exactly `false`
      (`retnVal === false`); `0`, `null` or `undefined` do not. */
  predicate ReturnsFalse(behaviour: Behaviour, l: Callback, payload: Json)
  {
    behaviour(l, payload) == Some(JBool(false))
  }

  /** `eventListenerMap[eventName] || []`. */
  function ListenersOf(m: map<string, seq<Callback>>, eventName: string): seq<Callback>
  {
    if eventName in m then m[eventName] else []
  }

  /** The listeners that a dispatch invokes, in order, each with the payload:
      registration order, stopping right after the first that returns
      exactly `false`. */
  function Fanout(ls: seq<Callback>, payload: Json, behaviour: Behaviour): (r: seq<Invocation>)
    ensures |r| <= |ls|
    ensures ls != [] ==> r != [] && r[0] == Invocation(ls[0], Some(payload))
  {
    if ls == [] then []
    else if ReturnsFalse(behaviour, ls[0], payload) then [Invocation(ls[0], Some(payload))]
    else [Invocation(ls[0], Some(payload))] + Fanout(ls[1..], payload, behaviour)
  }

  /** What a dispatch promises: the listeners run in registration order,
      each with the payload; none before the last returned exactly `false`;
      and the dispatch stops early only right after one that did. */
  lemma {:induction false} FanoutRunsInOrder(ls: seq<Callback>, payload: Json, behaviour: Behaviour)
    ensures var r := Fanout(ls, payload, behaviour);
            && (forall i :: 0 <= i < |r| ==> r[i] == Invocation(ls[i], Some(payload)))
            && (forall i :: 0 <= i < |r| - 1 ==> !ReturnsFalse(behaviour, ls[i], payload))
            && (|r| < |ls| ==> 0 < |r| && ReturnsFalse(behaviour, ls[|r| - 1], payload))
  {
    if ls != [] && !ReturnsFalse(behaviour, ls[0], payload) {
      FanoutRunsInOrder(ls[1..], payload, behaviour);
    }
  }

  /** Unfolding `Fanout` one listener further, as the dispatch loop does. */
  lemma FanoutStep(ls: seq<Callback>, i: nat, payload: Json, behaviour: Behaviour)
    requires i < |ls|
    ensures Fanout(ls[i..], payload, behaviour) ==
      if ReturnsFalse(behaviour, ls[i], payload) then [Invocation(ls[i], Some(payload))]
      else [Invocation(ls[i], Some(payload))] + Fanout(ls[i + 1..], payload, behaviour)
  {
    assert ls[i..][1..] == ls[i + 1..];
  }

  /** `list.filter(old => old !== cb)`. */
  function Without(ls: seq<Callback>, cb: Callback): (r: seq<Callback>)
    ensures cb !in r
    ensures multiset(r) == multiset(ls)[cb := 0]
    ensures cb !in ls ==> r == ls
  {
    if ls == [] then []
    else
      assert ls == [ls[0]] + ls[1..];
      if ls[0] == cb then Without(ls[1..], cb)
      else [ls[0]] + Without(ls[1..], cb)
  }

  /** The filter keeps the remaining listeners in their order: it works
      piece by piece on a concatenation. */
  lemma {:induction false} WithoutConcat(a: seq<Callback>, b: seq<Callback>, cb: Callback)
    ensures Without(a + b, cb) == Without(a, cb) + Without(b, cb)
  {
    if a == [] {
      assert a + b == b;
    } else {
      assert (a + b)[1..] == a[1..] + b;
      WithoutConcat(a[1..], b, cb);
    }
  }

  /** An `arguments`-style value: an array, or an object with `length`. */
  predicate ArrayLike(j: Json)
  {
    j.JArr? || (j.JObj? && "length" in j.fields)
  }

  /** `arrArgs = arrArgs || []`, then wrapping a value that is not an object
      or has no `length` into a one-element array. */
  function NormalizeArgs(args: Option<Json>): (r: Json)
    ensures ArrayLike(r)
    ensures !TruthyValue(args) ==> r == JArr([])
    ensures TruthyValue(args) && ArrayLike(args.value) ==> r == args.value
    ensures TruthyValue(args) && !ArrayLike(args.value) ==> r == JArr([args.value])
  {
    if !TruthyValue(args) then JArr([])
    else
      var a := args.value;
      if (a.JArr? || a.JObj?) && Get(a, "length").Some? then a else JArr([a])
  }

  /** Normalising twice changes nothing more. */
  lemma NormalizeIdempotent(args: Option<Json>)
    ensures NormalizeArgs(Some(NormalizeArgs(args))) == NormalizeArgs(args)
  {
  }

  /** Entry points of the script side of the bridge. */
  const EventEntry: string := "window.nsWebViewInterface._onNativeEvent("
  const CallEntry: string := "window.nsWebViewInterface._callJSFunction("

  /** `window.nsWebViewInterface._onNativeEvent("<name>",<payload>);`. */
  function EmitInstruction(eventName: string, payloadText: string): string
  {
    EventEntry + Quote(eventName) + "," + payloadText + ");"
  }

  /** How the web view reads an event instruction: the event name up to the
      closing quote, and the payload expression between `",` and `);`.
      This is JavaScript's reading for names without escapes (`PlainName`). */
  function PeerEvent(instruction: string): Option<(string, string)>
  {
    var open := EventEntry + "\"";
    if |instruction| < |open| || instruction[..|open|] != open then None
    else
      var rest := instruction[|open|..];
      var name := TakeUntil(rest, '"');
      var tail := rest[|name|..];
      if 4 <= |tail| && tail[..2] == "\"," && tail[|tail| - 2..] == ");"
      then Some((name, tail[2..|tail| - 2]))
      else None
  }

  /** Text with no backslash and no line break: inside a double-quoted
      JavaScript string literal no character of it is an escape or an
      error. */
  predicate NoEscapes(s: string)
  {
    '\\' !in s && '\n' !in s && '\r' !in s
  }

  /** Text that a double-quoted JavaScript string literal carries verbatim. */
  predicate PlainName(s: string)
  {
    '"' !in s && NoEscapes(s)
  }

  /** An event name that a string literal carries verbatim reaches the web
      view intact, and so does the payload text that follows it. */
  lemma EmitInstructionDecodes(eventName: string, payloadText: string)
    ensures PlainName(eventName) ==>
              PeerEvent(EmitInstruction(eventName, payloadText)) == Some((eventName, payloadText))
  {
    if PlainName(eventName) {
      var open := EventEntry + "\"";
      var after := "," + payloadText + ");";
      var rest := eventName + ['"'] + after;
      assert EmitInstruction(eventName, payloadText) == open + rest by {
        assert Quote(eventName) == "\"" + eventName + "\"";
      }
      TakeUntilSplit(eventName, '"', after);
      assert rest[|eventName|..] == "\"," + payloadText + ");";
      PayloadTail(payloadText);
    }
  }

  /** The text after the event name: the payload between `",` and `);`. */
  lemma PayloadTail(payloadText: string)
    ensures var tail := "\"," + payloadText + ");";
            && 4 <= |tail| && tail[..2] == "\"," && tail[|tail| - 2..] == ");"
            && tail[2..|tail| - 2] == payloadText
  {
    var tail := "\"," + payloadText + ");";
    assert tail[..2] == "\",";
    assert tail[|tail| - 2..] == ");";
  }
}
