/**
 * `chat_with_flowise`: look up the session, send the question, and turn whatever came
 * back (a status and a decoded JSON body, or a raised exception) into the reply text.
 * The HTTP call itself is not modelled: its outcome is an input.
 */
module FlowiseReply {
  import opened Wrappers
  import Sessions

  /** A decoded JSON value as Python holds it after `response.json()`. */
  datatype Value =
    | Null
    | Bool(b: bool)
    | Int(i: int)
    | Float(isZero: bool, rendering: string)
    | Str(s: string)
    | List(size: nat, rendering: string)
    | Dict(entries: map<string, Value>, rendering: string)

  /** Python truthiness of a value. */
  predicate ValueTruthy(v: Value) {
    match v
    case Null => false
    case Bool(b) => b
    case Int(i) => i != 0
    case Float(isZero, _) => !isZero
    case Str(s) => s != ""
    case List(size, _) => size > 0
    case Dict(entries, _) => |entries| > 0
  }

  /** Whether `len()` accepts the value. */
  predicate HasLen(v: Value) {
    v.Str? || v.List? || v.Dict?
  }

  /** `type(v).__name__`. */
  function TypeName(v: Value): string {
    match v
    case Null => "NoneType"
    case Bool(_) => "bool"
    case Int(_) => "int"
    case Float(_, _) => "float"
    case Str(_) => "str"
    case List(_, _) => "list"
    case Dict(_, _) => "dict"
  }

  function DigitChar(d: nat): char
    requires d < 10
  {
    "0123456789"[d]
  }

  predicate AllDigits(s: string) {
    forall k :: 0 <= k < |s| ==> '0' <= s[k] <= '9'
  }

  /** Reference definition: the number a string of decimal digits denotes. */
  function DigitsValue(s: string): nat
    requires AllDigits(s)
  {
    if s == [] then 0 else 10 * DigitsValue(s[..|s| - 1]) + (s[|s| - 1] - '0') as nat
  }

  /** The decimal digits of n, without sign or leading zeros: the digits denote n. */
  function Decimal(n: nat): (r: string)
    ensures |r| >= 1 && AllDigits(r)
    ensures |r| > 1 ==> r[0] != '0'
    ensures DigitsValue(r) == n
  {
    if n < 10 then [DigitChar(n)]
    else
      var front := Decimal(n / 10);
      var r := front + [DigitChar(n % 10)];
      assert r[..|r| - 1] == front;
      r
  }

  /** `str(v)`. Float, list and dict renderings are carried by the value itself. */
  function Render(v: Value): (r: string)
    ensures v.Null? ==> r == "None"
    ensures v.Bool? ==> r == if v.b then "True" else "False"
    ensures v.Str? ==> r == v.s
    ensures v.Int? && v.i >= 0 ==>
      |r| >= 1 && (|r| > 1 ==> r[0] != '0') && AllDigits(r) && DigitsValue(r) == v.i
    ensures v.Int? && v.i < 0 ==>
      |r| >= 2 && r[0] == '-' && r[1] != '0' && AllDigits(r[1..]) && DigitsValue(r[1..]) == -v.i
  {
    match v
    case Null => "None"
    case Bool(b) => if b then "True" else "False"
    case Int(i) => if i < 0 then "-" + Decimal(-i) else Decimal(i)
    case Float(_, rendering) => rendering
    case Str(s) => s
    case List(_, rendering) => rendering
    case Dict(_, rendering) => rendering
  }

  /** The body of a 200 response: decoded JSON, or the decoder's error message. */
  datatype Body = Decoded(value: Value) | Undecodable(error: string)

  /** What the POST to the prediction endpoint ended in. */
  datatype Outcome =
    | Response(status: int, body: Body)
    | Raised(error: string)   // timeout, connection error: `str(e)`

  /** The request body: `{"question": ..., "overrideConfig": {"sessionId": ...}}`. */
  datatype Request = Request(question: string, sessionId: string)

  const ServiceApology := "Sorry, I encountered an error connecting to the travel card service. Please try again."
  const ErrorPrefix := "Sorry, I encountered an error: "

  /** The keys tried, in order, on a dictionary body. */
  const ReplyKeys := ["text", "output", "answer"]

  /** Reference definition: the value under the first of `keys` present, else `fallback`. */
  function FirstPresent(keys: seq<string>, entries: map<string, Value>, fallback: Value): Value
    decreases |keys|
  {
    if keys == [] then fallback
    else if keys[0] in entries then entries[keys[0]]
    else FirstPresent(keys[1..], entries, fallback)
  }

  /** `result.get('text', result.get('output', result.get('answer', str(result))))`. */
  function Extract(entries: map<string, Value>, rendering: string): Value {
    if "text" in entries then entries["text"]
    else if "output" in entries then entries["output"]
    else if "answer" in entries then entries["answer"]
    else Str(rendering)
  }

  /** The nested lookups are the priority order text, output, answer, then `str(result)`. */
  lemma ExtractIsFirstPresent(entries: map<string, Value>, rendering: string)
    ensures Extract(entries, rendering) == FirstPresent(ReplyKeys, entries, Str(rendering))
  {
  }

  /** The apology that echoes an exception's message. */
  function ErrorReply(message: string): (r: string)
    ensures |r| >= |ErrorPrefix| && r[..|ErrorPrefix|] == ErrorPrefix && r[|ErrorPrefix|..] == message
  {
    ErrorPrefix + message
  }

  /** The reply text (lines 78-94 of app.py) for one outcome of the relay call. */
  function ReplyFor(outcome: Outcome): (reply: Value)
    ensures outcome.Response? && outcome.status != 200 ==> reply == Str(ServiceApology)
    ensures outcome.Raised? ==> reply == Str(ErrorReply(outcome.error))
    ensures !(outcome.Response? && outcome.status == 200 && outcome.body.Decoded?) ==> reply.Str?
    ensures outcome.Response? && outcome.status == 200 && outcome.body.Decoded? && !outcome.body.value.Dict?
      ==> reply == Str(Render(outcome.body.value))
  {
    match outcome
    case Raised(error) => Str(ErrorReply(error))
    case Response(status, body) =>
      if status != 200 then Str(ServiceApology)
      else match body
        case Undecodable(error) => Str(ErrorReply(error))
        case Decoded(v) =>
          if v.Dict? then
            var reply := Extract(v.entries, v.rendering);
            // the length logged before returning: `len()` of a truthy number or bool raises
            if ValueTruthy(reply) && !HasLen(reply) then
              Str(ErrorReply("object of type '" + TypeName(reply) + "' has no len()"))
            else reply
          else Str(Render(v))
  }

  /** Any status other than 200 gives the fixed apology, whatever the body: the status never reaches the user. */
  lemma NonOkIsApology(status: int, body: Body)
    requires status != 200
    ensures ReplyFor(Response(status, body)) == Str(ServiceApology)
  {
  }

  /**
   * An exception gives the error apology, from which the exception's message can be read
   * back; a 200 body that does not decode raises inside the same `try` and is answered
   * the same way with the decoder's message.
   */
  lemma RaisedEchoesError(error: string)
    ensures ReplyFor(Raised(error)).Str?
    ensures var r := ReplyFor(Raised(error)).s;
      r[..|ErrorPrefix|] == ErrorPrefix && r[|ErrorPrefix|..] == error
    ensures ReplyFor(Response(200, Undecodable(error))) == Str(ErrorReply(error))
  {
  }

  /** A 200 body that is not a dictionary is rendered with `str()`; a JSON string comes back as is. */
  lemma OkScalarRendered(v: Value)
    requires !v.Dict?
    ensures ReplyFor(Response(200, Decoded(v))) == Str(Render(v))
    ensures v.Str? ==> ReplyFor(Response(200, Decoded(v))) == v
  {
  }

  /**
   * For a 200 dictionary body the reply is the first of text, output, answer that is
   * present, whatever its value (None and "" included), else `str(result)`; the only
   * exception is a truthy number or bool, on which the logged `len()` raises.
   */
  lemma OkDictPriority(entries: map<string, Value>, rendering: string)
    ensures var chosen := FirstPresent(ReplyKeys, entries, Str(rendering));
      ReplyFor(Response(200, Decoded(Dict(entries, rendering))))
        == if ValueTruthy(chosen) && !HasLen(chosen)
           then Str(ErrorPrefix + "object of type '" + TypeName(chosen) + "' has no len()")
           else chosen
  {
  }

  /** When `text` is present, no other key of the body changes the reply. */
  lemma TextDominates(entries: map<string, Value>, rendering: string, key: string, v: Value)
    requires "text" in entries && key != "text"
    ensures ReplyFor(Response(200, Decoded(Dict(entries[key := v], rendering))))
      == ReplyFor(Response(200, Decoded(Dict(entries, rendering))))
  {
  }

  /** Keys other than text, output and answer matter only through `str(result)` when none of the three is present. */
  lemma OtherKeysIgnored(entries: map<string, Value>, rendering: string, key: string, v: Value)
    requires key !in ReplyKeys
    requires "text" in entries || "output" in entries || "answer" in entries
    ensures ReplyFor(Response(200, Decoded(Dict(entries[key := v], rendering))))
      == ReplyFor(Response(200, Decoded(Dict(entries, rendering))))
  {
  }

  /** The three single-key bodies `{"text": "ok"}`, `{"output": "ok"}`, `{"answer": "ok"}` all reply "ok". */
  lemma SingleKeyBodies(rendering: string)
    ensures ReplyFor(Response(200, Decoded(Dict(map["text" := Str("ok")], rendering)))) == Str("ok")
    ensures ReplyFor(Response(200, Decoded(Dict(map["output" := Str("ok")], rendering)))) == Str("ok")
    ensures ReplyFor(Response(200, Decoded(Dict(map["answer" := Str("ok")], rendering)))) == Str("ok")
  {
  }

  /**
   * `chat_with_flowise(message, userId, threadId)`: the session is looked up (and created
   * if new) before the call, so the registry change stands whatever the call returns;
   * the request carries the message and that session id; the reply is `ReplyFor(outcome)`.
   */
  method ChatWithFlowise(registry: Sessions.SessionRegistry, message: string, userId: string,
                         threadId: Option<string>, stamp: string, outcome: Outcome)
    returns (request: Request, reply: Value)
    requires registry.Valid()
    modifies registry
    ensures registry.Valid()
    ensures var r := Sessions.Resolve(old(registry.sessions), Sessions.SessionKey(userId, threadId), stamp);
      registry.sessions == r.sessions && request == Request(message, r.id)
    ensures reply == ReplyFor(outcome)
  {
    var sessionId := registry.GetSessionId(userId, threadId, stamp);
    request := Request(message, sessionId);
    reply := ReplyFor(outcome);
  }
}
