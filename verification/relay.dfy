/**
 The relay controller: the four event handlers of the bot, each a pure
 function from the routing state and one inbound event to the next state
 and the outbound calls the handler makes, in order.

 The administrator's id is the parameter `admin`. Transport results the
 handlers consume are fields of the event: the id the platform assigns to
 the message sent to the administrator (`sentId`) and the file id of the
 sender's latest profile photo, if any (`photo`).
 */
module Relay {
  import opened Wrappers
  import opened Router
  import opened DisplayName

  /** The fixed texts the bot sends back to the administrator's chat. */
  datatype Notice =
    | NotConnected   // the replied-to message is not linked to a user
    | ReplyRequired  // a command was not sent as a reply
    | UserNotFound   // /block replied to an unlinked message
    | UserBlocked    // /block succeeded
    | ChatNotFound   // /close replied to an unlinked message
    | ChatClosed     // /close succeeded

  /** One outbound call to the messaging platform. */
  datatype Effect =
    /** `send_photo` to the administrator, captioned with the sender's label. */
    | PhotoToAdmin(photo: string, name: string)
    /** `send_message` to the administrator: the sender's label, chat id and text. */
    | SendToAdmin(name: string, chat: int, text: string)
    /** `send_message` to a user chat, threaded under one of the user's messages. */
    | SendToUser(chat: int, text: string, replyTo: int)
    /** The closing `send_message` of `/close`. Its target is the whole
        removed record, not the record's chat id: that is what the bot passes. */
    | CloseNotice(target: Link)
    /** `reply_text` in the administrator's chat. */
    | NoticeToAdmin(notice: Notice)

  /** One inbound update, already routed to its handler. */
  datatype Event =
    /** A text message from a user's private chat. */
    | UserMessage(chat: int, user: User, messageId: int, text: string,
                  photo: Option<string>, sentId: int)
    /** A message from the administrator, possibly a reply to another message. */
    | AdminMessage(replyTo: Option<int>, text: string)
    /** `/block`, from the given user id, possibly as a reply. */
    | BlockCommand(sender: int, replyTo: Option<int>)
    /** `/close`, from the given user id, possibly as a reply. */
    | CloseCommand(sender: int, replyTo: Option<int>)

  /** The result of handling an event. */
  datatype Transition = Transition(state: State, effects: seq<Effect>)

  /** No state change and no outbound call. */
  function Ignore(s: State): Transition {
    Transition(s, [])
  }

  /** `handle_user_message`. A blocked chat is dropped without a trace.
      Otherwise the profile photo (if any) and then the text go to the
      administrator, and the administrator-facing message is linked to the
      user's chat and message; no other link and no block changes. */
  function HandleUserMessage(s: State, chat: int, sender: User, messageId: int,
                             text: string, photo: Option<string>, sentId: int): (t: Transition)
    ensures IsBlocked(s, chat) ==> t == Ignore(s)
    ensures !IsBlocked(s, chat) ==>
      && Lookup(t.state, sentId) == Some(Link(chat, messageId))
      && (forall k :: k != sentId ==> Lookup(t.state, k) == Lookup(s, k))
      && t.state.blocked == s.blocked
    ensures !IsBlocked(s, chat) ==>
      && |t.effects| == (if photo.Some? then 2 else 1)
      && t.effects[|t.effects| - 1] == SendToAdmin(GetDisplayName(sender), chat, text)
      && (photo.Some? ==> t.effects[0] == PhotoToAdmin(photo.value, GetDisplayName(sender)))
  {
    if IsBlocked(s, chat) then Ignore(s)
    else
      var name := GetDisplayName(sender);
      var photoCall := if photo.Some? then [PhotoToAdmin(photo.value, name)] else [];
      Transition(RecordLink(s, sentId, Link(chat, messageId)),
                 photoCall + [SendToAdmin(name, chat, text)])
  }

  /** `handle_admin_reply`. Never changes the state. A message that is not a
      reply is ignored; a reply to an unlinked message gets one notice; a
      reply to a linked message is sent, once, to the linked chat under the
      linked user message. */
  function HandleAdminReply(s: State, replyTo: Option<int>, text: string): (t: Transition)
    ensures t.state == s
    ensures replyTo.None? ==> t.effects == []
    ensures replyTo.Some? && Lookup(s, replyTo.value).None? ==>
      t.effects == [NoticeToAdmin(NotConnected)]
    ensures replyTo.Some? && Lookup(s, replyTo.value).Some? ==>
      var link := Lookup(s, replyTo.value).value;
      t.effects == [SendToUser(link.chat, text, link.messageId)]
  {
    match replyTo
    case None => Ignore(s)
    case Some(id) =>
      match Lookup(s, id)
      case None => Transition(s, [NoticeToAdmin(NotConnected)])
      case Some(link) => Transition(s, [SendToUser(link.chat, text, link.messageId)])
  }

  /** `block_user`. Ignored unless the administrator sent it. Without a
      reply, or replying to an unlinked message, only a notice is sent.
      Otherwise the linked chat joins the blocked set, no link changes, and
      the administrator is told. */
  function HandleBlock(admin: int, s: State, sender: int, replyTo: Option<int>): (t: Transition)
    ensures sender != admin ==> t == Ignore(s)
    ensures sender == admin && replyTo.None? ==>
      t == Transition(s, [NoticeToAdmin(ReplyRequired)])
    ensures sender == admin && replyTo.Some? && Lookup(s, replyTo.value).None? ==>
      t == Transition(s, [NoticeToAdmin(UserNotFound)])
    ensures sender == admin && replyTo.Some? && Lookup(s, replyTo.value).Some? ==>
      && t.state.replyMap == s.replyMap
      && t.state.blocked == s.blocked + {Lookup(s, replyTo.value).value.chat}
      && t.effects == [NoticeToAdmin(UserBlocked)]
  {
    if sender != admin then Ignore(s)
    else match replyTo
      case None => Transition(s, [NoticeToAdmin(ReplyRequired)])
      case Some(id) =>
        match Lookup(s, id)
        case None => Transition(s, [NoticeToAdmin(UserNotFound)])
        case Some(link) => Transition(BlockChat(s, link.chat), [NoticeToAdmin(UserBlocked)])
  }

  /** `close_chat`. Ignored unless the administrator sent it. Without a
      reply, or replying to an unlinked message, only a notice is sent.
      Otherwise exactly that link is removed, the removed record is the
      target of the closing message, and the administrator is told. */
  function HandleClose(admin: int, s: State, sender: int, replyTo: Option<int>): (t: Transition)
    ensures sender != admin ==> t == Ignore(s)
    ensures sender == admin && replyTo.None? ==>
      t == Transition(s, [NoticeToAdmin(ReplyRequired)])
    ensures sender == admin && replyTo.Some? && Lookup(s, replyTo.value).None? ==>
      t == Transition(s, [NoticeToAdmin(ChatNotFound)])
    ensures sender == admin && replyTo.Some? && Lookup(s, replyTo.value).Some? ==>
      && Lookup(t.state, replyTo.value) == None
      && (forall k :: k != replyTo.value ==> Lookup(t.state, k) == Lookup(s, k))
      && t.state.blocked == s.blocked
      && t.effects == [CloseNotice(Lookup(s, replyTo.value).value), NoticeToAdmin(ChatClosed)]
  {
    if sender != admin then Ignore(s)
    else match replyTo
      case None => Transition(s, [NoticeToAdmin(ReplyRequired)])
      case Some(id) =>
        match RemoveLink(s, id)
        case (_, None) => Transition(s, [NoticeToAdmin(ChatNotFound)])
        case (s', Some(link)) => Transition(s', [CloseNotice(link), NoticeToAdmin(ChatClosed)])
  }

  /** One inbound event handled by the handler it is routed to. Only /block
      can block a chat; only a user message can add a link, and only a
      /close can remove one; administrator messages change nothing. */
  function Step(admin: int, s: State, e: Event): (t: Transition)
    ensures !e.BlockCommand? ==> t.state.blocked == s.blocked
    ensures e.BlockCommand? ==> s.blocked <= t.state.blocked && |t.state.blocked - s.blocked| <= 1
    ensures !e.UserMessage? ==> t.state.replyMap.Keys <= s.replyMap.Keys
    ensures !e.CloseCommand? ==> s.replyMap.Keys <= t.state.replyMap.Keys
    ensures e.AdminMessage? ==> t.state == s
  {
    match e
    case UserMessage(chat, user, messageId, text, photo, sentId) =>
      HandleUserMessage(s, chat, user, messageId, text, photo, sentId)
    case AdminMessage(replyTo, text) => HandleAdminReply(s, replyTo, text)
    case BlockCommand(sender, replyTo) => HandleBlock(admin, s, sender, replyTo)
    case CloseCommand(sender, replyTo) => HandleClose(admin, s, sender, replyTo)
  }

  /** A sequence of events handled one at a time, in order: the final state
      and every outbound call, in the order they are made. */
  function Run(admin: int, s: State, es: seq<Event>): Transition
    decreases |es|
  {
    if es == [] then Ignore(s)
    else
      var first := Step(admin, s, es[0]);
      var rest := Run(admin, first.state, es[1..]);
      Transition(rest.state, first.effects + rest.effects)
  }
}
