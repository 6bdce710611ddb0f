/**
 * The three chat-event handlers as decisions: each maps an event (a Python dict from
 * field name to string) to an `Action`, which `Perform` then carries out against the
 * session registry and the outcome of the relay call.
 */
module Handlers {
  import opened Wrappers
  import opened PyText
  import Mention
  import Sessions
  import FlowiseReply

  type Event = map<string, string>

  const Greeting := "Hi! I'm the Travel Card Assistant. Ask me anything about provisioning travel cards!"
  const UsageHint := "Hi! Ask me anything about provisioning travel cards. For example: 'I need a travel card for John Doe'"

  /** What a handler does with one event. */
  datatype Action =
    | Ignore                                   // returns without calling `say`
    | KeyMissing(field: string)                // `event[field]` raised KeyError before any reply
    | Say(text: string, thread: Option<string>) // a fixed reply, no relay call
    | Relay(question: string, userId: string, threadId: Option<string>, replyThread: Option<string>)
      // `say(chat_with_flowise(question, userId, threadId), thread_ts=replyThread)`

  /** `event.get(field)`. */
  function Get(e: Event, field: string): Option<string> {
    if field in e then Some(e[field]) else None
  }

  /** The registry key a relay is filed under. */
  function RelayKey(a: Action): string
    requires a.Relay?
  {
    Sessions.SessionKey(a.userId, a.threadId)
  }

  /** The mention text with every `<@ID>` token removed and the rest stripped. */
  function CleanMention(text: string): (r: string)
    ensures |r| <= |text|
    ensures r != [] ==> !IsSpace(r[0]) && !IsSpace(r[|r| - 1])
    ensures (forall k :: 0 <= k < |text| ==> text[k] != '<') ==> r == Strip(text)
  {
    var r := Strip(Mention.RemoveMentions(text));
    assert (forall k :: 0 <= k < |text| ==> text[k] != '<') ==> r == Strip(text) by {
      if forall k :: 0 <= k < |text| ==> text[k] != '<' {
        Mention.NoBracketUnchanged(text);
      }
    }
    r
  }

  /**
   * `handle_app_mention`: it always answers (unless a field is missing), always in the
   * mention's thread, and never relays empty text.
   */
  function HandleMention(e: Event): (a: Action)
    ensures a.KeyMissing? <==> !MentionComplete(e)
    ensures !a.Ignore?
    ensures a.Say? ==> a.text == Greeting && a.thread == Some(MentionThread(e))
    ensures a.Relay? ==> a.question != "" && a.threadId == a.replyThread == Some(MentionThread(e))
  {
    if "user" !in e then KeyMissing("user")
    else if "text" !in e then KeyMissing("text")
    else if "ts" !in e then KeyMissing("ts")  // the default of `get` is evaluated first
    else
      var threadTs := MentionThread(e);
      var clean := CleanMention(e["text"]);
      if clean == "" then Say(Greeting, Some(threadTs))
      else Relay(clean, e["user"], Some(threadTs), Some(threadTs))
  }

  /**
   * `handle_message`: it never sends a fixed reply; a relay is answered outside any thread
   * exactly when it came from a DM, and otherwise in the thread it is filed under.
   */
  function HandleMessage(e: Event): (a: Action)
    ensures !a.Say?
    ensures a.Relay? ==> (a.replyThread == None <==> Get(e, "channel_type") == Some("im"))
    ensures a.Relay? && a.replyThread != None ==> a.threadId == a.replyThread && Truthy(a.threadId)
  {
    if Truthy(Get(e, "subtype")) || Truthy(Get(e, "bot_id")) then Ignore
    else if "user" !in e then KeyMissing("user")
    else if "text" !in e then KeyMissing("text")
    else if Get(e, "channel_type") == Some("im") then Relay(e["text"], e["user"], None, None)
    else if Truthy(Get(e, "thread_ts")) then
      Relay(e["text"], e["user"], Some(e["thread_ts"]), Some(e["thread_ts"]))
    else Ignore
  }

  /**
   * `handle_travelcard_command`, with `stamp` standing for the microsecond clock reading:
   * it fails only without `user_id`, always answers outside any thread, and files a relay
   * under a truthy thread argument of its own.
   */
  function HandleSlashCommand(command: Event, stamp: string): (a: Action)
    ensures a.KeyMissing? <==> "user_id" !in command
    ensures !a.Ignore?
    ensures a.Say? ==> a == Say(UsageHint, None)
    ensures a.Relay? ==> a.question != "" && a.replyThread == None && Truthy(a.threadId)
  {
    if "user_id" !in command then KeyMissing("user_id")
    else
      var text := if "text" in command then command["text"] else "";
      if text == "" then Say(UsageHint, None)
      else Relay(text, command["user_id"], Some("slash-" + command["user_id"] + "-" + stamp), None)
  }

  /** Whether a mention event carries the fields the handler reads with `[]`. */
  predicate MentionComplete(e: Event) {
    "user" in e && "text" in e && "ts" in e
  }

  /** The thread a mention is answered in: `thread_ts`, defaulting to the message's own `ts`. */
  function MentionThread(e: Event): string
    requires "ts" in e
  {
    if "thread_ts" in e then e["thread_ts"] else e["ts"]
  }

  /**
   * A mention whose cleaned text is empty gets the greeting in the mention's thread,
   * with no relay; any other mention relays the cleaned text, filed
   * under and answered in that thread (a present but empty `thread_ts` files it under the
   * user's DM key instead).
   */
  lemma MentionRouting(e: Event)
    requires MentionComplete(e)
    ensures var clean := CleanMention(e["text"]);
      && (HandleMention(e) == Say(Greeting, Some(MentionThread(e))) <==> clean == "")
      && (clean != "" ==>
            && HandleMention(e) == Relay(clean, e["user"], Some(MentionThread(e)), Some(MentionThread(e)))
            && RelayKey(HandleMention(e))
               == if MentionThread(e) != "" then MentionThread(e) else "dm-" + e["user"])
  {
  }

  /**
   * A mention missing a field the handler reads with `[]` raises before any reply, in the
   * order the fields are read; `ts` is read even when `thread_ts` is present, because the
   * default argument of `get` is evaluated first.
   */
  lemma MentionMissingFields(e: Event)
    ensures "user" !in e ==> HandleMention(e) == KeyMissing("user")
    ensures "user" in e && "text" !in e ==> HandleMention(e) == KeyMissing("text")
    ensures "user" in e && "text" in e && "ts" !in e ==> HandleMention(e) == KeyMissing("ts")
    ensures HandleMention(e).KeyMissing? <==> !MentionComplete(e)
  {
  }

  // The example lemmas below take their literal as a parameter fixed by `requires`, so that
  // the solver does not unfold the recursive functions on a literal argument without bound.

  /** The mention text "<@U123ABC> need a card" cleans to "need a card". */
  lemma CleanMentionExample(text: string)
    requires text == "<@U123ABC> need a card"
    ensures CleanMention(text) == "need a card"
  {
    ExampleTokenRemoved(text);
    ExampleStripped(Mention.RemoveMentions(text));
  }

  lemma ExampleTokenRemoved(text: string)
    requires text == "<@U123ABC> need a card"
    ensures Mention.RemoveMentions(text) == " need a card"
  {
    var token, rest := "<@U123ABC>", " need a card";
    assert text == token + rest;
    Mention.TokenThenPlain(token, rest);
  }

  lemma ExampleStripped(rest: string)
    requires rest == " need a card"
    ensures Strip(rest) == "need a card"
  {
    StripUnique(rest, 1, |rest|);
    assert rest[1..|rest|] == "need a card";
  }

  /** The mention "<@U123ABC> need a card" relays exactly "need a card", in its own thread. */
  lemma MentionExample(text: string, user: string, ts: string)
    requires text == "<@U123ABC> need a card"
    ensures HandleMention(map["user" := user, "text" := text, "ts" := ts])
      == Relay("need a card", user, Some(ts), Some(ts))
  {
    CleanMentionExample(text);
  }

  /** A mention that is only a token gets the greeting in its own thread. */
  lemma MentionOnlyTokenGreets(token: string, user: string, ts: string)
    requires Mention.IsToken(token)
    ensures HandleMention(map["user" := user, "text" := token, "ts" := ts]) == Say(Greeting, Some(ts))
  {
    Mention.LeadingTokenRemoved(token, "");
    assert token + "" == token;
  }

  /**
   * Message routing, as a complete case split: edited or bot messages and anything that
   * is neither a DM nor a thread reply get nothing; a DM relays under the user's DM key and
   * is answered outside any thread, even when it carries `thread_ts`; any other thread
   * reply relays under and is answered in its thread.
   */
  lemma MessageRouting(e: Event)
    ensures Truthy(Get(e, "subtype")) || Truthy(Get(e, "bot_id")) ==> HandleMessage(e) == Ignore
    ensures HandleMessage(e).Relay? <==>
      && !Truthy(Get(e, "subtype")) && !Truthy(Get(e, "bot_id"))
      && "user" in e && "text" in e
      && (Get(e, "channel_type") == Some("im") || Truthy(Get(e, "thread_ts")))
    ensures HandleMessage(e).Relay? ==>
      var a := HandleMessage(e);
      && a.question == e["text"] && a.userId == e["user"]
      && if Get(e, "channel_type") == Some("im")
         then RelayKey(a) == "dm-" + e["user"] && a.replyThread == None
         else RelayKey(a) == e["thread_ts"] && a.replyThread == Some(e["thread_ts"])
    ensures !HandleMessage(e).Say?
  {
  }

  /**
   * A message that passes the subtype and bot filter but lacks `user` or `text` raises
   * before any reply, `user` being read first.
   */
  lemma MessageMissingFields(e: Event)
    requires !Truthy(Get(e, "subtype")) && !Truthy(Get(e, "bot_id"))
    ensures "user" !in e ==> HandleMessage(e) == KeyMissing("user")
    ensures "user" in e && "text" !in e ==> HandleMessage(e) == KeyMissing("text")
    ensures HandleMessage(e).KeyMissing? <==> !("user" in e && "text" in e)
  {
  }

  /**
   * A slash command with empty or missing text gets the usage hint and no relay;
   * otherwise it relays under the key `slash-<user>-<stamp>` and answers outside any thread.
   */
  lemma SlashRouting(command: Event, stamp: string)
    requires "user_id" in command
    ensures !HandleSlashCommand(command, stamp).KeyMissing?
    ensures var text := if "text" in command then command["text"] else "";
      && (text == "" <==> HandleSlashCommand(command, stamp) == Say(UsageHint, None))
      && (text != "" ==>
            var a := HandleSlashCommand(command, stamp);
            a.Relay? && a.question == text && a.replyThread == None
            && RelayKey(a) == "slash-" + command["user_id"] + "-" + stamp)
  {
  }

  /** Two invocations by the same user at different clock readings are filed under different keys. */
  lemma SlashKeysDistinct(command: Event, stamp1: string, stamp2: string)
    requires "user_id" in command && "text" in command && command["text"] != ""
    requires stamp1 != stamp2
    ensures RelayKey(HandleSlashCommand(command, stamp1)) != RelayKey(HandleSlashCommand(command, stamp2))
  {
    var prefix := "slash-" + command["user_id"] + "-";
    assert RelayKey(HandleSlashCommand(command, stamp1))[|prefix|..] == stamp1;
    assert RelayKey(HandleSlashCommand(command, stamp2))[|prefix|..] == stamp2;
  }

  /**
   * A top-level mention and a later reply in the thread it starts (whose `thread_ts` is the
   * mention's `ts`) are filed under one registry key, so the reply continues the mention's
   * Flowise session: after the mention's lookup, the reply's lookup returns the same id.
   */
  lemma MentionThenReplyShareKey(mention: Event, reply: Event, sessions: map<string, string>,
                                 stamp1: string, stamp2: string)
    requires MentionComplete(mention) && "thread_ts" !in mention && mention["ts"] != ""
    requires CleanMention(mention["text"]) != ""
    requires !Truthy(Get(reply, "subtype")) && !Truthy(Get(reply, "bot_id"))
    requires "user" in reply && "text" in reply
    requires Get(reply, "channel_type") != Some("im")
    requires Get(reply, "thread_ts") == Some(mention["ts"])
    ensures HandleMention(mention).Relay? && HandleMessage(reply).Relay?
    ensures RelayKey(HandleMention(mention)) == RelayKey(HandleMessage(reply)) == mention["ts"]
    ensures var first := Sessions.Resolve(sessions, RelayKey(HandleMention(mention)), stamp1);
      Sessions.Resolve(first.sessions, RelayKey(HandleMessage(reply)), stamp2) == first
  {
    MentionRouting(mention);
    MessageRouting(reply);
  }

  /** A message `say` posts: the text and the thread it is posted in (None: not in a thread). */
  datatype Post = Post(text: FlowiseReply.Value, thread: Option<string>)

  /**
   * Carries out an action: a relay looks up the session, sends the request and posts the
   * reply; a fixed reply posts its text; nothing else posts, and only a relay touches the
   * registry.
   */
  method Perform(registry: Sessions.SessionRegistry, action: Action, stamp: string,
                 outcome: FlowiseReply.Outcome)
    returns (request: Option<FlowiseReply.Request>, post: Option<Post>)
    requires registry.Valid()
    modifies registry
    ensures registry.Valid()
    ensures action.Relay? ==>
      var r := Sessions.Resolve(old(registry.sessions), RelayKey(action), stamp);
      && registry.sessions == r.sessions
      && request == Some(FlowiseReply.Request(action.question, r.id))
      && post == Some(Post(FlowiseReply.ReplyFor(outcome), action.replyThread))
    ensures !action.Relay? ==>
      && registry.sessions == old(registry.sessions)
      && request == None
      && post == if action.Say? then Some(Post(FlowiseReply.Str(action.text), action.thread)) else None
  {
    match action
    case Relay(question, userId, threadId, replyThread) =>
      var req, reply := FlowiseReply.ChatWithFlowise(registry, question, userId, threadId, stamp, outcome);
      request, post := Some(req), Some(Post(reply, replyThread));
    case Say(text, thread) =>
      request, post := None, Some(Post(FlowiseReply.Str(text), thread));
    case Ignore =>
      request, post := None, None;
    case KeyMissing(_) =>
      request, post := None, None;
  }
}
