# Anonymous relay bot: the routing state machine

A Telegram bot relays messages between anonymous users and one administrator.
Every user message is forwarded to the administrator; the bot remembers, in
`reply_map`, which user chat and which user message each forwarded
(administrator-facing) message came from, so that an administrator reply to
it can be threaded back to the user. `/block`, sent as a reply, adds that
user's chat to `blocked_users`, whose messages are dropped from then on;
`/close`, sent as a reply, forgets the link and sends a closing message.

This project models that core as pure functions over an immutable state:

- `Wrappers` — `Option`, for Python's `None`.
- `Router` — the record `Link(chat, messageId)`, the `State` holding
  `replyMap: map<int, Link>` and `blocked: set<int>`, and the dictionary and
  set operations the handlers use.
- `DisplayName` — the sender label (`get_display_name`).
- `Relay` — inbound `Event`s, outbound `Effect`s, notice kinds, the four
  handlers, `Step` (one event through its handler) and `Run` (a sequence of
  events folded through `Step`, effects concatenated in order).
- `RelayProperties` — what holds across several events.

Inputs the handlers get from the platform are fields of the event: the id
the platform assigns to the message sent to the administrator (`sentId`) and
the file id of the sender's latest profile photo, if there is one (`photo`).
The administrator id (`ADMIN_ID`) is the parameter `admin`. The effects of
a step are the platform calls the handler makes, in order, each assuming
the previous call returned.

Two points where the code and its own comments and names disagree:

- The comment on `reply_map` (bot_render.py:21) says values are user chat
  ids; the code stores a record of chat id and message id (bot_render.py:65-68).
  The model follows the code: values are `Link`s.
- `close_chat` pops the whole record and passes it as the `chat_id` of the
  closing `send_message` (bot_render.py:128-131). The user's chat was
  evidently meant: the popped value is bound to a variable named
  `user_chat_id` (bot_render.py:128), and the comment at bot_render.py:21
  says the values are user chat ids. The model keeps what the code does. The effect
  `CloseNotice(target: Link)` carries the removed record, and no property
  claims the user's chat receives it.

## Model

| member | source | states |
|---|---|---|
| `Router.Lookup` | bot_render.py:82-86 | an id resolves exactly when it is a key of the reply map, and then to the record stored under it |
| `Router.RecordLink` | bot_render.py:65-68 | after recording, the id resolves to the new link (overwriting any earlier one), every other id resolves as before, the keys grow by that id only, and the blocked set is untouched |
| `Router.RemoveLink` | bot_render.py:123-128 | the pop returns what the id resolved to; afterwards the id no longer resolves, every other id resolves as before, the blocked set is untouched, and an absent id changes nothing |
| `Router.BlockChat` | bot_render.py:110 | after adding, the chat is blocked, every other chat keeps its blocked status, and the reply map is untouched |
| `Router.BlockChatIdempotent` | bot_render.py:110 | adding a chat to the blocked set twice equals adding it once; adding an already blocked chat is no change |
| `Router.RecordThenRemove` | bot_render.py:65-68 | a recorded link is what a later pop of the same id returns, and after the pop the id does not resolve |
| `DisplayName.GetDisplayName` | bot_render.py:26-29 | a non-empty handle gives `@` plus the handle; otherwise a non-empty full name gives that name; otherwise `Unknown`; the label is never empty |
| `DisplayName.HandleDecidesLabel` | bot_render.py:27-28 | with a non-empty handle the full name is irrelevant, and the label gives the handle back after its `@` |
| `Relay.HandleUserMessage` | bot_render.py:33-68 | a blocked chat's message changes nothing and sends nothing; otherwise the photo (when one exists) and then the text go to the administrator with the sender's label and chat id, and only the relayed id gets a new link, to the sender's chat and message |
| `Relay.HandleAdminReply` | bot_render.py:74-92 | the state never changes; a non-reply sends nothing; a reply to an unlinked id sends exactly one "not connected" notice; a reply to a linked id sends exactly one message, to the link's chat, threaded under the link's message |
| `Relay.HandleBlock` | bot_render.py:97-111 | a non-administrator changes and sends nothing; no reply or an unlinked id sends only the matching notice and changes nothing; a linked id adds exactly the link's chat to the blocked set, leaves the reply map unchanged, and confirms |
| `Relay.HandleClose` | bot_render.py:115-135 | a non-administrator changes and sends nothing; no reply or an unlinked id sends only the matching notice and changes nothing; a linked id removes exactly that key, keeps every other link and the blocked set, targets the closing message at the removed record, and confirms |
| `Relay.Step` | bot_render.py:143-159 | each event goes to its handler: only `/block` can block a chat, and it adds at most one; only a user message can add a link; only `/close` can remove one; an administrator message changes nothing |
| `RelayProperties.RunAppend` | bot_render.py:163 | events are handled one at a time in order: running two sequences back to back is running the second from the state the first leaves, with its outbound calls after the first's |
| `RelayProperties.BlockIdempotent` | bot_render.py:105-110 | blocking the same conversation twice leaves the same state as blocking it once |
| `RelayProperties.BlockSuppressesNextRelay` | bot_render.py:37-38 | after a successful block, the next message from the linked chat records nothing and sends nothing |
| `RelayProperties.BlockSuppressesLaterRelays` | bot_render.py:37-38 | after a successful block, every later message from that chat, in any event sequence that follows, is handled as a no-op in the state it meets: no profile photo, no text and no link; and no text relay to the administrator carries that chat id |
| `RelayProperties.CloseForgetsLink` | bot_render.py:123-128 | after a successful close, a reply to the closed id takes the "not connected" branch, and `/block` and `/close` on it take their "not found" branches |
| `RelayProperties.BlockedOnlyGrows` | bot_render.py:110 | no sequence of events removes a chat from the blocked set |
| `RelayProperties.BlockedNeverRelayed` | bot_render.py:37-38 | from a state where a chat is blocked, every later sequence of events keeps it blocked, handles each of its messages as a no-op (no photo, no text, no state change), sends no text relay carrying its chat id, and creates no link to it |
| `RelayProperties.LinkPersists` | bot_render.py:65-128 | an id resolves as before across any sequence of events that contains no user message given that id and no administrator `/close` replying to it |
| `RelayProperties.LinksComeFromRelays` | bot_render.py:65-68 | every link at the end of a sequence of events was there at the start under the same id, or is the chat and message of a user message of the sequence that was given that id and whose chat was not blocked when it arrived, so it was relayed |
| `RelayProperties.AdminRepliesInert` | bot_render.py:77-92 | a sequence of administrator messages leaves the state unchanged, and each of its effects is a "not connected" notice or a send threaded to a stored link |
| `RelayProperties.Walkthrough` | bot_render.py:33-135 | user chat 1001 says "hello", is relayed and linked, receives the administrator's reply under its message, is blocked and dropped afterwards while its link survives, and closing removes the link and targets the removed record |

## Left out

- The Telegram client (building the application, polling, fetching profile
  photos, sending photos and messages, `reply_text`): outbound calls are
  `Effect` values; the fetched photo and the assigned message id are event
  fields.
- Failures of platform calls: the code has no handling around them, so an
  exception simply ends the handler; the model lists every call a handler
  makes as if each returned. In particular a failing text relay would leave
  no link, and a failing closing message (likely, given the record it is
  addressed to) would leave the link removed and the confirmation unsent.
- Async scheduling: events are handled one at a time, in order (`Run`).
- Configuration and startup (reading `BOT_TOKEN` and `ADMIN_ID`, which
  crashes when `ADMIN_ID` is unset): the administrator id is a parameter.
- Handler registration and filters in `main`: each `Event` constructor is
  already routed to its handler. `handle_admin_reply` itself does not check
  the sender, so its model has no administrator precondition.
- Non-text administrator messages: the administrator's filter
  (bot_render.py:149) has no text filter, so a photo or sticker reply
  reaches bot_render.py:88-92 with no text. `AdminMessage` always carries
  a string, so that case, and what the platform does with a send that has
  no text, is not modelled.
- The wording of notices and the layout of the relayed text: notices are a
  `Notice` kind, and the relayed message is its label, chat id and text.
- Logging.
