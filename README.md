# Session and routing policy of the Slack–Flowise travel-card bot

The bot relays Slack messages to a Flowise prediction endpoint and posts the answer back.
This project models the part of `app.py` that decides things:

- **Session registry** (`Sessions`): the module-level dictionary `thread_sessions` and
  `get_flowise_session_id`, a get-or-create cache from a conversation-scope key to the
  Flowise session id. The key is the thread id when it is truthy and `dm-<user>` otherwise;
  a new key is stored as `slack-<key>-<stamp>`; nothing is ever overwritten or removed.
  `SessionRegistry` is a class with a `map<string, string>` field and a `modifies this`
  method; `Resolve` is the same get-or-create on a pure map, and the lemmas about it
  (idempotence, a map that only grows, first stamp wins, distinct scopes get distinct ids)
  carry over to the method through its postcondition.
- **Reply extraction** (`FlowiseReply`): how `chat_with_flowise` turns the outcome of the
  POST into reply text. A 200 response whose JSON body is a dict yields the value under
  `text`, else `output`, else `answer`, else `str(result)`; any other 200 body yields
  `str(result)`; any other status yields a fixed apology; an exception yields an apology
  that echoes the exception's message. The outcome of the HTTP call is an input
  (`Outcome`), and `ChatWithFlowise` composes the registry lookup, the request and the reply.
- **Event routing** (`Handlers`, with `Mention` and `PyText`): `handle_app_mention`,
  `handle_message` and `handle_travelcard_command` as functions from the event dictionary
  to an `Action` (ignore, a `KeyError` on a missing field, a fixed reply, or a relay with
  its question, user, thread argument and reply thread). Mention cleaning is
  `re.sub(r'<@[A-Z0-9]+>', '', text).strip()`, modelled as a one-pass left-to-right token
  removal and Python's `str.strip()`. `Perform` carries an action out against the registry.

Clock readings (`datetime.now().strftime(...)`) are string parameters (`stamp`), and the
outcome of the HTTP call is a parameter of `ChatWithFlowise` and `Perform`.

Behaviour of the code that is easy to misread, and that the model follows:

- The comment at app.py:169-170 gives each slash command its own session. The id
  `slash-<user>-<stamp>` built there is passed as the `thread_id` argument of
  `chat_with_flowise`, so it becomes a registry key (the registry grows by one entry per
  invocation) and the id actually sent is `slack-slash-<user>-<stamp>-<stamp'>`.
  `SlashRouting` and `Perform` state this.
- The registry key is the thread id only when the thread id is truthy: a mention whose
  `thread_ts` is present but empty is filed under the user's DM key (`MentionRouting`).
- The length logged on the dict path (`len(flowise_response) if flowise_response else 0`)
  raises `TypeError` for a truthy number or boolean, which the surrounding `try` turns into
  the error apology; `OkDictPriority` states this case.

Observations proved about the code as written:

- `re.sub` makes a single pass, so removing a token can join the text around it into a new
  token: `"<@<@A>A>"` becomes `"<@A>"`, which a second pass would remove
  (`Mention.SinglePassNotIdempotent`).
- Session ids of different keys are different when the stamps have one width, as
  `%Y%m%d%H%M%S` has for four-digit years (`Sessions.DistinctScopesDistinctIds`).

## Model

| member | source | states |
|---|---|---|
| `PyText.LeadingSpaces` | app.py:107 | the count is the length of the maximal run of whitespace at the start of the text |
| `PyText.TrailingSpaces` | app.py:107 | the count is the length of the maximal run of whitespace at the end of the text |
| `PyText.Strip` | app.py:107 | `str.strip()`: empty exactly when the text is all whitespace; otherwise the slice after the leading whitespace, with non-whitespace at both ends and only whitespace outside it |
| `PyText.StripUnique` | app.py:107 | any slice with non-whitespace ends and only whitespace outside it is what `strip()` returns |
| `PyText.StripKeeps` | app.py:107 | text with no whitespace at either end is returned unchanged |
| `PyText.StripIdempotent` | app.py:107 | stripping twice equals stripping once |
| `Mention.IdRun` | app.py:107 | the greedy `[A-Z0-9]+` run: every counted character is in the class and the next one is not |
| `Mention.TokenAt` | app.py:107 | a match of `<@[A-Z0-9]+>` at the start of the text is found exactly when some prefix is a token, with that prefix's length |
| `Mention.TokenPrefixUnique` | app.py:107 | at most one prefix of a text is a mention token, so the match is unambiguous |
| `Mention.RemoveMentions` | app.py:105-107 | removing tokens never makes the text longer; its value is fixed by `LeadingTokenRemoved` (a token at the front goes) and `NoTokenKept` (elsewhere the first character stays) |
| `Mention.NoTokenKept` | app.py:107 | where no prefix is a token (by the reference definition), the first character is kept and the scan goes on from the next one |
| `Mention.LeadingTokenRemoved` | app.py:107 | a token at the front is removed whole, whatever follows |
| `Mention.PlainCharKept` | app.py:107 | a character other than `<` is kept and the rest is processed independently |
| `Mention.NoBracketUnchanged` | app.py:107 | text without `<` is returned unchanged |
| `Mention.TokenThenPlain` | app.py:107 | a token followed by `<`-free text leaves exactly that text |
| `Mention.SinglePassNotIdempotent` | app.py:107 | one pass over `<@<@A>A>` leaves the token `<@A>`, which a second pass removes |
| `Sessions.SessionKey` | app.py:43-45 | the key is the thread id when it is truthy; otherwise it is `dm-` followed by the user id, which can be read back from it |
| `Sessions.NewSessionId` | app.py:49-50 | definition of `slack-<key>-<stamp>`; its properties are `KeyOfNewSessionId` and `NewSessionIdInjective` |
| `Sessions.ScopeKeysDistinct` | app.py:43-45 | two calls share a key exactly when both have the same truthy thread id, or neither has one and the users are equal (for thread ids not starting with `dm-`) |
| `Sessions.KeyOf` | app.py:50 | a recovered key rebuilds the session id it came from |
| `Sessions.KeyOfNewSessionId` | app.py:49-50 | the key is recoverable from `slack-<key>-<stamp>` given the stamp's width |
| `Sessions.NewSessionIdInjective` | app.py:49-50 | different keys with same-width stamps give different session ids |
| `Sessions.Resolve` | app.py:47-53 | get-or-create: the key is present afterwards and the result is its entry; the domain grows by that key only; no existing entry changes; a new entry is `slack-<key>-<stamp>` |
| `Sessions.ResolveExisting` | app.py:47-53 | a key already present returns its stored id and leaves the map unchanged |
| `Sessions.ResolveIdempotent` | app.py:47-53 | a second lookup of the same key returns the same id and changes nothing, whatever the later stamp |
| `Sessions.ResolveAllGrows` | app.py:31-53 | over any sequence of lookups every earlier entry survives unchanged |
| `Sessions.ResolveAllKeys` | app.py:31-53 | after a sequence of lookups the keys are exactly the earlier keys plus the looked-up ones |
| `Sessions.FirstStampWins` | app.py:47-53 | the first lookup of a new key fixes its id with that call's stamp for all later lookups |
| `Sessions.DistinctScopesDistinctIds` | app.py:31-53 | in a well-formed registry with same-width stamps, two keys never share a session id |
| `Sessions.SessionRegistry.constructor` | app.py:31 | the registry starts empty |
| `Sessions.SessionRegistry.GetSessionId` | app.py:33-53 | the new map and the returned id are those of `Resolve` on the derived key; the invariant that each id is `slack-<key>-<stamp>` is kept |
| `FlowiseReply.Extract` | app.py:81 | definition of the nested `get` calls; its property is `ExtractIsFirstPresent` |
| `FlowiseReply.Render` | app.py:85 | `str()` of a value: None is `None`, a bool is `True`/`False`, a string is itself; an int is its decimal digits without leading zeros (with `-` when negative), which denote its value |
| `FlowiseReply.ReplyFor` | app.py:78-94 | a status other than 200 gives the fixed apology; an exception gives the apology echoing its message; every path except a decoded 200 body gives text; a non-dict 200 body gives `str(result)`; the dict path is `OkDictPriority` |
| `FlowiseReply.ExtractIsFirstPresent` | app.py:81 | the nested `get` calls return the value of the first present key of text, output, answer, else `str(result)` |
| `FlowiseReply.ErrorReply` | app.py:94 | the apology starts with the fixed prefix and the exception message can be read back after it |
| `FlowiseReply.NonOkIsApology` | app.py:86-89 | every status other than 200 gives the fixed apology, whatever the body |
| `FlowiseReply.RaisedEchoesError` | app.py:78-94 | an exception gives the prefix followed by the exception's message, which can be read back; a 200 body that fails to decode gives the same apology with the decoder's message |
| `FlowiseReply.Decimal` | app.py:85 | `str()` of a non-negative integer: digits only, no leading zero, and the digits denote the number |
| `FlowiseReply.OkScalarRendered` | app.py:84-85 | a 200 body that is not a dict is rendered with `str()`, a JSON string coming back as is |
| `FlowiseReply.OkDictPriority` | app.py:78-83 | a 200 dict body replies with the first present key's value, whatever it is, except that a truthy number or bool makes the logged `len()` raise and gives the error apology |
| `FlowiseReply.TextDominates` | app.py:81 | when `text` is present, no other key of the body changes the reply |
| `FlowiseReply.OtherKeysIgnored` | app.py:81 | keys other than text, output, answer do not change the reply when one of those is present |
| `FlowiseReply.SingleKeyBodies` | app.py:78-83 | `{"text": "ok"}`, `{"output": "ok"}` and `{"answer": "ok"}` each reply "ok" |
| `FlowiseReply.ChatWithFlowise` | app.py:55-94 | the session is resolved before the call and stays whatever the outcome; the request carries the message and that session id; the reply is the outcome's reply |
| `Handlers.CleanMention` | app.py:107 | the cleaned text is no longer than the message, neither starts nor ends with whitespace, and is just the stripped message when the message has no `<` |
| `Handlers.MentionThread` | app.py:102 | definition of the reply thread, `thread_ts` defaulting to `ts`; used by `MentionRouting` and `HandleMention` |
| `Handlers.HandleMention` | app.py:98-125 | fails exactly when `user`, `text` or `ts` is missing; never ignores a mention; greets or relays non-empty text, always in the mention's thread |
| `Handlers.HandleMessage` | app.py:129-152 | never sends a fixed reply; a relay is answered outside a thread exactly when it came from a DM, otherwise in the truthy thread it is filed under; the full case split is `MessageRouting` |
| `Handlers.HandleSlashCommand` | app.py:156-175 | fails exactly when `user_id` is missing; never ignores; the only fixed reply is the usage hint; a relay carries non-empty text, is answered outside any thread and is filed under a truthy thread argument |
| `Handlers.MentionRouting` | app.py:100-125 | the greeting in the mention's thread (`thread_ts`, defaulting to `ts`) exactly when the cleaned text is empty; otherwise a relay of the cleaned text filed under and answered in that thread |
| `Handlers.MentionMissingFields` | app.py:100-102 | a missing `user`, `text` or `ts` raises `KeyError` in that order, `ts` even when `thread_ts` is present; no other mention raises |
| `Handlers.CleanMentionExample` | app.py:107 | `<@U123ABC> need a card` cleans to `need a card` |
| `Handlers.MentionExample` | app.py:100-125 | that mention relays `need a card` in the message's own thread |
| `Handlers.MentionOnlyTokenGreets` | app.py:107-114 | a mention that is only a token gets the greeting, no relay |
| `Handlers.MessageRouting` | app.py:132-152 | subtype or bot messages are ignored; a relay happens exactly for DMs and thread replies; a DM uses the `dm-` key and no reply thread even with `thread_ts`; a thread reply uses and answers in its thread |
| `Handlers.MessageMissingFields` | app.py:132-136 | after the subtype and bot filter, a missing `user` and then a missing `text` raise, and nothing else does |
| `Handlers.SlashRouting` | app.py:160-175 | with `user_id` present there is no error; empty or missing text gives the usage hint; otherwise a relay under key `slash-<user>-<stamp>` answered outside any thread |
| `Handlers.SlashKeysDistinct` | app.py:171 | two invocations with different stamps are filed under different keys |
| `Handlers.MentionThenReplyShareKey` | app.py:100-152 | a top-level mention and a reply in the thread it starts are filed under the mention's `ts`, and the reply's lookup returns the mention's session id |
| `Handlers.Perform` | app.py:96-175 | a relay resolves the session, sends the request and posts the reply; a fixed reply posts its text; nothing else posts; only a relay changes the registry |

## Left out

- The HTTP call (`requests.post`, JSON decoding, the 30-second timeout) is not executed: its outcome is the `Outcome` input, with a decode failure as `Undecodable`.
- Slack plumbing (`App`, `say`, `ack`, `SocketModeHandler`) is foreign library code: `say` is the `Post` that `Perform` returns, and the `ack()` that precedes every slash command is not represented.
- `handle_app_home_opened` only publishes a static view through the Slack client and logs failures; it makes no decision and is not modelled.
- The Flask `/health` and `/` endpoints, the daemon thread that serves them and the start-up check of environment variables are web-framework, threading and process configuration.
- Logging calls are not modelled, except the `len()` in one of them, because it can raise and change the reply.
- The clock: `datetime.now().strftime(...)` becomes the `stamp` string parameter; the formats themselves (14 and 20 digits) are not modelled.
- `str()` of a float, list or dict is carried as an opaque rendering inside the value; `str()` of None, a bool, an int and a string is computed.
- Concurrent access to `thread_sessions` is not modelled; the registry is used sequentially.
- Event fields other than strings (for example a non-string `subtype`) are not modelled: an event is a dictionary from field name to string.
