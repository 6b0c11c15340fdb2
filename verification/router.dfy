/**
 The bot's in-memory routing state: `reply_map`, from the id of each message
 delivered to the administrator to the user message it was relayed from, and
 `blocked_users`, the chats whose messages are dropped.
 */
module Router {
  import opened Wrappers

  /** The record stored in `reply_map`: the user's chat and the id of the
      user's message that the administrator-facing message relays. */
  datatype Link = Link(chat: int, messageId: int)

  /** The two process-wide variables of the bot, as one immutable value. */
  datatype State = State(replyMap: map<int, Link>, blocked: set<int>)

  /** Both variables start empty when the process starts. */
  const Initial: State := State(map[], {})

  /** The membership test on `reply_map` followed, when it succeeds, by the
      index `reply_map[id]`: the link of an administrator-facing message, if any. */
  function Lookup(s: State, adminMessageId: int): (r: Option<Link>)
    ensures r.Some? <==> adminMessageId in s.replyMap
    ensures r.Some? ==> r.value == s.replyMap[adminMessageId]
  {
    if adminMessageId in s.replyMap then Some(s.replyMap[adminMessageId]) else None
  }

  /** `chat_id in blocked_users`. */
  predicate IsBlocked(s: State, chat: int) {
    chat in s.blocked
  }

  /** `reply_map[id] = link`: afterwards `id` resolves to `link` (an earlier
      link under the same id is overwritten), every other id resolves as
      before, and the blocked set is untouched. */
  function RecordLink(s: State, adminMessageId: int, link: Link): (r: State)
    ensures Lookup(r, adminMessageId) == Some(link)
    ensures forall k :: k != adminMessageId ==> Lookup(r, k) == Lookup(s, k)
    ensures r.replyMap.Keys == s.replyMap.Keys + {adminMessageId}
    ensures r.blocked == s.blocked
  {
    s.(replyMap := s.replyMap[adminMessageId := link])
  }

  /** `reply_map.pop(id)` guarded by a membership test: returns the link that
      was stored (or None), and afterwards `id` no longer resolves while every
      other id resolves as before. An absent id changes nothing. */
  function RemoveLink(s: State, adminMessageId: int): (r: (State, Option<Link>))
    ensures r.1 == Lookup(s, adminMessageId)
    ensures Lookup(r.0, adminMessageId) == None
    ensures forall k :: k != adminMessageId ==> Lookup(r.0, k) == Lookup(s, k)
    ensures r.0.replyMap.Keys == s.replyMap.Keys - {adminMessageId}
    ensures r.0.blocked == s.blocked
    ensures adminMessageId !in s.replyMap ==> r.0 == s
  {
    if adminMessageId in s.replyMap then
      (s.(replyMap := s.replyMap - {adminMessageId}), Some(s.replyMap[adminMessageId]))
    else
      (s, None)
  }

  /** `blocked_users.add(chat)`: afterwards `chat` is blocked, every other
      chat is blocked exactly when it was before, and no link changes. */
  function BlockChat(s: State, chat: int): (r: State)
    ensures IsBlocked(r, chat)
    ensures forall c :: c != chat ==> (IsBlocked(r, c) <==> IsBlocked(s, c))
    ensures r.replyMap == s.replyMap
  {
    s.(blocked := s.blocked + {chat})
  }

  /** Adding a chat to the blocked set twice is the same as adding it once,
      and adding an already blocked chat is no change at all. */
  lemma BlockChatIdempotent(s: State, chat: int)
    ensures BlockChat(BlockChat(s, chat), chat) == BlockChat(s, chat)
    ensures IsBlocked(s, chat) ==> BlockChat(s, chat) == s
  {
  }

  /** A recorded link is observed by a later lookup until it is removed. */
  lemma RecordThenRemove(s: State, adminMessageId: int, link: Link)
    ensures RemoveLink(RecordLink(s, adminMessageId, link), adminMessageId).1 == Some(link)
    ensures Lookup(RemoveLink(RecordLink(s, adminMessageId, link), adminMessageId).0, adminMessageId) == None
  {
  }
}
