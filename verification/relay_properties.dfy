/**
 Properties of the relay over more than one event: what a block or a close
 does to the events after it, and what stays true over any sequence of
 events.
 */
module RelayProperties {
  import opened Wrappers
  import opened Router
  import opened DisplayName
  import opened Relay

  /** Blocking the same conversation twice leaves the same state as blocking
      it once. */
  lemma BlockIdempotent(admin: int, s: State, mid: int)
    ensures var once := Step(admin, s, BlockCommand(admin, Some(mid))).state;
            Step(admin, once, BlockCommand(admin, Some(mid))).state == once
  {
  }

  /** After a successful block of a conversation, the next message from its
      chat is dropped: no link is recorded and nothing is sent. */
  lemma BlockSuppressesNextRelay(admin: int, s: State, mid: int, e: Event)
    requires Lookup(s, mid).Some?
    requires e.UserMessage? && e.chat == Lookup(s, mid).value.chat
    ensures var blocked := Step(admin, s, BlockCommand(admin, Some(mid))).state;
            Step(admin, blocked, e) == Ignore(blocked)
  {
  }

  /** After a successful close, the closed id takes the "not connected"
      branch of a reply, and the "not found" branches of /block and /close. */
  lemma CloseForgetsLink(admin: int, s: State, mid: int, text: string)
    requires Lookup(s, mid).Some?
    ensures var closed := Step(admin, s, CloseCommand(admin, Some(mid))).state;
            && Step(admin, closed, AdminMessage(Some(mid), text))
               == Transition(closed, [NoticeToAdmin(NotConnected)])
            && Step(admin, closed, BlockCommand(admin, Some(mid)))
               == Transition(closed, [NoticeToAdmin(UserNotFound)])
            && Step(admin, closed, CloseCommand(admin, Some(mid)))
               == Transition(closed, [NoticeToAdmin(ChatNotFound)])
  {
  }

  /** No event unblocks a chat: the blocked set only grows over a run. */
  lemma {:induction false} BlockedOnlyGrows(admin: int, s: State, es: seq<Event>)
    ensures s.blocked <= Run(admin, s, es).state.blocked
    decreases |es|
  {
    if es != [] {
      BlockedOnlyGrows(admin, Step(admin, s, es[0]).state, es[1..]);
    }
  }

  /** Every user message of `es` from chat `c` is dropped where it occurs:
      handled in the state the events before it lead to, it changes nothing
      and sends nothing (no profile photo, no text). */
  ghost predicate DropsEveryMessageFrom(admin: int, s: State, es: seq<Event>, c: int) {
    forall i :: 0 <= i < |es| && es[i].UserMessage? && es[i].chat == c ==>
      Step(admin, Run(admin, s, es[..i]).state, es[i]) == Ignore(Run(admin, s, es[..i]).state)
  }

  /** The state after a non-empty prefix is the state after the rest of that
      prefix, run from the state the first event leads to. */
  lemma RunPrefixUnfold(admin: int, s: State, es: seq<Event>, i: int)
    requires 0 < i <= |es|
    ensures Run(admin, s, es[..i]).state == Run(admin, Step(admin, s, es[0]).state, es[1..][..i - 1]).state
  {
    assert es[..i][0] == es[0];
    assert es[..i][1..] == es[1..][..i - 1];
  }

  /** Once a chat is blocked, every later message from it is dropped, so no
      later event relays anything from it to the administrator, and no later
      event links a message to it: every link to that chat at the end of a
      run was already there, under the same id. */
  lemma {:induction false} BlockedNeverRelayed(admin: int, s: State, es: seq<Event>, c: int)
    requires IsBlocked(s, c)
    ensures var t := Run(admin, s, es);
            && IsBlocked(t.state, c)
            && DropsEveryMessageFrom(admin, s, es, c)
            && (forall i :: 0 <= i < |t.effects| && t.effects[i].SendToAdmin? ==> t.effects[i].chat != c)
            && (forall k :: k in t.state.replyMap && t.state.replyMap[k].chat == c ==>
                  k in s.replyMap && s.replyMap[k] == t.state.replyMap[k])
    decreases |es|
  {
    if es != [] {
      var first := Step(admin, s, es[0]);
      BlockedNeverRelayed(admin, first.state, es[1..], c);
      var rest := Run(admin, first.state, es[1..]);
      assert forall i :: 0 <= i < |first.effects| && first.effects[i].SendToAdmin? ==>
        first.effects[i].chat != c;
      assert forall k :: k in first.state.replyMap && first.state.replyMap[k].chat == c ==>
        k in s.replyMap && s.replyMap[k] == first.state.replyMap[k];
      var all := first.effects + rest.effects;
      forall i | 0 <= i < |all| && all[i].SendToAdmin?
        ensures all[i].chat != c
      {
        if i >= |first.effects| {
          assert all[i] == rest.effects[i - |first.effects|];
        }
      }
      forall i | 0 <= i < |es| && es[i].UserMessage? && es[i].chat == c
        ensures Step(admin, Run(admin, s, es[..i]).state, es[i]) == Ignore(Run(admin, s, es[..i]).state)
      {
        if i == 0 {
          assert es[..0] == [];
        } else {
          RunPrefixUnfold(admin, s, es, i);
          assert es[1..][i - 1] == es[i];
        }
      }
    }
  }

  /** A successful block drops every later message from the blocked chat,
      over any events that follow it: no photo, no text and no link. */
  lemma BlockSuppressesLaterRelays(admin: int, s: State, mid: int, later: seq<Event>)
    requires Lookup(s, mid).Some?
    ensures var c := Lookup(s, mid).value.chat;
            var blocked := Step(admin, s, BlockCommand(admin, Some(mid))).state;
            DropsEveryMessageFrom(admin, blocked, later, c)
    ensures var c := Lookup(s, mid).value.chat;
            var t := Run(admin, s, [BlockCommand(admin, Some(mid))] + later);
            forall i :: 0 <= i < |t.effects| && t.effects[i].SendToAdmin? ==> t.effects[i].chat != c
  {
    var es := [BlockCommand(admin, Some(mid))] + later;
    assert es[0] == BlockCommand(admin, Some(mid)) && es[1..] == later;
    var first := Step(admin, s, es[0]);
    BlockedNeverRelayed(admin, first.state, later, Lookup(s, mid).value.chat);
  }

  /** An event that can rewrite or remove the link stored under `id`: a user
      message given that id (counted even when its chat is blocked and it is
      dropped), or an administrator /close replying to it. */
  predicate Touches(admin: int, e: Event, id: int) {
    || (e.UserMessage? && e.sentId == id)
    || (e.CloseCommand? && e.sender == admin && e.replyTo == Some(id))
  }

  /** A link stays as recorded until it is closed: replies, blocks, other
      relays and other closes do not change what an id resolves to. */
  lemma {:induction false} LinkPersists(admin: int, s: State, es: seq<Event>, id: int)
    requires forall i :: 0 <= i < |es| ==> !Touches(admin, es[i], id)
    ensures Lookup(Run(admin, s, es).state, id) == Lookup(s, id)
    decreases |es|
  {
    if es != [] {
      var first := Step(admin, s, es[0]);
      assert Lookup(first.state, id) == Lookup(s, id) by {
        assert !Touches(admin, es[0], id);
      }
      LinkPersists(admin, first.state, es[1..], id);
    }
  }

  /** A user message records `(chat, message id)` under the id its relay to
      the administrator was given, when it is relayed at all. */
  predicate RecordedBy(e: Event, id: int, link: Link) {
    e.UserMessage? && e.sentId == id && link == Link(e.chat, e.messageId)
  }

  /** Links are created only by relays: at the end of a run, every link is
      either one that was there at the start, under the same id, or the chat
      and message of a user message of the run that was relayed under that
      id, its chat not blocked when it arrived. */
  lemma {:induction false} LinksComeFromRelays(admin: int, s: State, es: seq<Event>)
    ensures var m := Run(admin, s, es).state.replyMap;
            forall k :: k in m ==>
              (k in s.replyMap && s.replyMap[k] == m[k])
              || (exists i :: 0 <= i < |es| && RecordedBy(es[i], k, m[k])
                             && !IsBlocked(Run(admin, s, es[..i]).state, es[i].chat))
    decreases |es|
  {
    if es != [] {
      var first := Step(admin, s, es[0]);
      LinksComeFromRelays(admin, first.state, es[1..]);
      var m := Run(admin, s, es).state.replyMap;
      forall k | k in m
        ensures (k in s.replyMap && s.replyMap[k] == m[k])
                || (exists i :: 0 <= i < |es| && RecordedBy(es[i], k, m[k])
                               && !IsBlocked(Run(admin, s, es[..i]).state, es[i].chat))
      {
        if k in first.state.replyMap && first.state.replyMap[k] == m[k] {
          if !(k in s.replyMap && s.replyMap[k] == m[k]) {
            assert es[..0] == [];
            assert RecordedBy(es[0], k, m[k]) && !IsBlocked(Run(admin, s, es[..0]).state, es[0].chat);
          }
        } else {
          var j :| 0 <= j < |es[1..]| && RecordedBy(es[1..][j], k, m[k])
                   && !IsBlocked(Run(admin, first.state, es[1..][..j]).state, es[1..][j].chat);
          RunPrefixUnfold(admin, s, es, j + 1);
          assert es[1..][j] == es[j + 1];
          assert RecordedBy(es[j + 1], k, m[k])
                 && !IsBlocked(Run(admin, s, es[..j + 1]).state, es[j + 1].chat);
        }
      }
    }
  }

  /** Handling events one at a time: running two sequences back to back is
      running the first, then the second from the state it leaves, with the
      second's outbound calls after the first's. */
  lemma {:induction false} RunAppend(admin: int, s: State, es: seq<Event>, fs: seq<Event>)
    ensures var a := Run(admin, s, es);
            var b := Run(admin, a.state, fs);
            Run(admin, s, es + fs) == Transition(b.state, a.effects + b.effects)
    decreases |es|
  {
    if es == [] {
      assert es + fs == fs;
    } else {
      var first := Step(admin, s, es[0]);
      assert (es + fs)[0] == es[0];
      assert (es + fs)[1..] == es[1..] + fs;
      RunAppend(admin, first.state, es[1..], fs);
      var a := Run(admin, first.state, es[1..]);
      var b := Run(admin, a.state, fs);
      assert first.effects + (a.effects + b.effects) == (first.effects + a.effects) + b.effects;
    }
  }

  /** Administrator messages never change the state, never relay anything
      to the administrator, and send a user only what is routed to a link. */
  lemma {:induction false} AdminRepliesInert(admin: int, s: State, es: seq<Event>)
    requires forall i :: 0 <= i < |es| ==> es[i].AdminMessage?
    ensures Run(admin, s, es).state == s
    ensures var eff := Run(admin, s, es).effects;
            forall i :: 0 <= i < |eff| ==>
              || eff[i] == NoticeToAdmin(NotConnected)
              || (eff[i].SendToUser? && Link(eff[i].chat, eff[i].replyTo) in s.replyMap.Values)
    decreases |es|
  {
    if es != [] {
      var first := Step(admin, s, es[0]);
      assert first.state == s;
      AdminRepliesInert(admin, s, es[1..]);
      var rest := Run(admin, s, es[1..]);
      var all := first.effects + rest.effects;
      forall i | 0 <= i < |all|
        ensures || all[i] == NoticeToAdmin(NotConnected)
                || (all[i].SendToUser? && Link(all[i].chat, all[i].replyTo) in s.replyMap.Values)
      {
        if i < |first.effects| {
          var id := es[0].replyTo.value;
          if all[i] != NoticeToAdmin(NotConnected) {
            assert id in s.replyMap;
            assert s.replyMap[id] in s.replyMap.Values;
          }
        } else {
          assert all[i] == rest.effects[i - |first.effects|];
        }
      }
    }
  }

  /** The walk-through of the bot's life cycle: user chat 1001 writes "hello"
      (message 7), relayed as administrator-facing message 500; the
      administrator answers it, blocks the user, who writes again (relay id
      501), and closes the conversation. */
  lemma Walkthrough(admin: int, u: User, nextPhoto: Option<string>)
    ensures var hello := UserMessage(1001, u, 7, "hello", None, 500);
            var s1 := Step(admin, Initial, hello);
            && Lookup(s1.state, 500) == Some(Link(1001, 7))
            && s1.effects == [SendToAdmin(GetDisplayName(u), 1001, "hello")]
            && var s2 := Step(admin, s1.state, AdminMessage(Some(500), "hi there"));
               && s2 == Transition(s1.state, [SendToUser(1001, "hi there", 7)])
               && var s3 := Step(admin, s2.state, BlockCommand(admin, Some(500)));
                  && IsBlocked(s3.state, 1001)
                  && Lookup(s3.state, 500) == Some(Link(1001, 7))
                  && var s4 := Step(admin, s3.state, UserMessage(1001, u, 8, "again", nextPhoto, 501));
                     && s4 == Ignore(s3.state)
                     && var s5 := Step(admin, s4.state, CloseCommand(admin, Some(500)));
                        && Lookup(s5.state, 500) == None
                        && s5.effects == [CloseNotice(Link(1001, 7)), NoticeToAdmin(ChatClosed)]
  {
  }
}
