/**
  The message feed and its composer: the list shown for the current channel,
  which rows carry the sender's avatar and name, which reaction chips are
  highlighted, and the composer's input text and emoji-picker state, whose
  handlers call into the conversation store.
 */
module MainContent {
  import opened Wrappers
  import opened Text
  import opened AppContext

  // ---------------------------------------------------------------------------
  // The shown list

  /**
    The feed shows `messages[currentChannel.id] || []`: sending to a channel
    grows exactly that channel's list by the new message, and only when the
    text is not blank; every other channel's list is shown as before.
   */
  lemma FeedAfterSend(mm: MessageMap, c: ChannelId, content: string, user: User, id: MessageId, timestamp: string, shown: ChannelId)
    ensures ChannelList(Send(mm, c, content, user, id, timestamp), shown) ==
      if shown == c && !IsBlank(content) then ChannelList(mm, shown) + [NewMessage(user, content, id, timestamp)]
      else ChannelList(mm, shown)
  {
    SendEffect(mm, c, content, user, id, timestamp);
  }

  /** Reacting keeps the shown list's length and every message's text and sender. */
  lemma FeedAfterReaction(mm: MessageMap, c: ChannelId, mid: MessageId, e: string, uid: UserId, shown: ChannelId)
    ensures |ChannelList(React(mm, c, mid, e, uid), shown)| == |ChannelList(mm, shown)|
    ensures forall i :: 0 <= i < |ChannelList(mm, shown)| ==>
      var before, after := ChannelList(mm, shown)[i], ChannelList(React(mm, c, mid, e, uid), shown)[i];
      after.id == before.id && after.userId == before.userId && after.content == before.content
  {
    AddReactionEffect(mm, c, mid, e, uid);
  }

  // ---------------------------------------------------------------------------
  // Avatar grouping

  /** Row `i` shows avatar and name when it is the first row or its sender differs from the row above. */
  predicate ShowAvatar(ms: seq<Message>, i: nat)
    requires i < |ms|
  {
    i == 0 || ms[i - 1].userId != ms[i].userId
  }

  function Senders(ms: seq<Message>): seq<UserId>
  {
    seq(|ms|, i requires 0 <= i < |ms| => ms[i].userId)
  }

  /** A sequence with each run of equal neighbours cut down to one element. */
  function Collapse(s: seq<UserId>): (r: seq<UserId>)
    ensures |r| <= |s|
    ensures forall i :: 0 <= i < |r| - 1 ==> r[i] != r[i + 1]
    ensures s != [] ==> r != [] && r[0] == s[0] && r[|r| - 1] == s[|s| - 1]
  {
    if |s| <= 1 then s
    else if s[0] == s[1] then Collapse(s[1..])
    else [s[0]] + Collapse(s[1..])
  }

  /** The senders named by the headers among the first `n` rows, top to bottom. */
  function HeaderSenders(ms: seq<Message>, n: nat): seq<UserId>
    requires n <= |ms|
  {
    if n == 0 then []
    else HeaderSenders(ms, n - 1) + (if ShowAvatar(ms, n - 1) then [ms[n - 1].userId] else [])
  }

  /** How many rows in `lo..hi` show a header. */
  function HeaderCount(ms: seq<Message>, lo: nat, hi: nat): nat
    requires lo <= hi <= |ms|
    decreases hi - lo
  {
    if lo == hi then 0
    else HeaderCount(ms, lo, hi - 1) + (if ShowAvatar(ms, hi - 1) then 1 else 0)
  }

  lemma {:induction false} CollapseSnoc(s: seq<UserId>, x: UserId)
    ensures Collapse(s + [x]) == Collapse(s) + (if s != [] && s[|s| - 1] == x then [] else [x])
    decreases |s|
  {
    if |s| == 1 {
      assert s + [x] == [s[0], x];
    } else if |s| > 1 {
      assert (s + [x])[1..] == s[1..] + [x];
      CollapseSnoc(s[1..], x);
    }
  }

  /**
    Reading the headers from top to bottom names the senders of the feed with
    each run of one sender's consecutive messages named once.
   */
  lemma HeadersFollowRuns(ms: seq<Message>)
    ensures HeaderSenders(ms, |ms|) == Collapse(Senders(ms))
  {
    HeadersFollowRunsUpTo(ms, |ms|);
    assert Senders(ms)[..|ms|] == Senders(ms);
  }

  lemma {:induction false} HeadersFollowRunsUpTo(ms: seq<Message>, n: nat)
    requires n <= |ms|
    ensures HeaderSenders(ms, n) == Collapse(Senders(ms)[..n])
  {
    if n > 0 {
      HeadersFollowRunsUpTo(ms, n - 1);
      var s, x := Senders(ms)[..n - 1], ms[n - 1].userId;
      SendersPrefix(ms, n);
      CollapseSnoc(s, x);
      if n == 1 {
        assert s == [];
      } else {
        assert s[|s| - 1] == ms[n - 2].userId;
      }
      assert ShowAvatar(ms, n - 1) == !(s != [] && s[|s| - 1] == x);
    }
  }

  lemma SendersPrefix(ms: seq<Message>, n: nat)
    requires 0 < n <= |ms|
    ensures Senders(ms)[..n] == Senders(ms)[..n - 1] + [ms[n - 1].userId]
  {
    var a, b := Senders(ms)[..n], Senders(ms)[..n - 1] + [ms[n - 1].userId];
    assert |a| == |b|;
    forall i | 0 <= i < n ensures a[i] == b[i] {
      if i < n - 1 { assert b[i] == Senders(ms)[i]; }
    }
  }

  /** A run of consecutive messages from one sender, starting where the sender changes, shows exactly one header. */
  lemma {:induction false} OneHeaderPerRun(ms: seq<Message>, lo: nat, hi: nat)
    requires lo < hi <= |ms|
    requires forall k :: lo <= k < hi ==> ms[k].userId == ms[lo].userId
    requires lo == 0 || ms[lo - 1].userId != ms[lo].userId
    ensures HeaderCount(ms, lo, hi) == 1
    decreases hi - lo
  {
    if hi - 1 > lo {
      OneHeaderPerRun(ms, lo, hi - 1);
    }
  }

  // ---------------------------------------------------------------------------
  // Reaction chips

  /** A chip is drawn highlighted when the viewing user is among its users. */
  predicate IsHighlighted(r: Reaction, uid: UserId)
  {
    uid in r.users
  }

  predicate ChipHighlighted(rs: seq<Reaction>, e: string, uid: UserId)
  {
    exists i :: 0 <= i < |rs| && rs[i].emoji == e && IsHighlighted(rs[i], uid)
  }

  /** With unique emojis, a highlighted chip for `e` means exactly that the user has reacted with `e`. */
  lemma HighlightMeansReacted(rs: seq<Reaction>, e: string, uid: UserId)
    requires EmojisUnique(rs)
    ensures ChipHighlighted(rs, e, uid) <==> Reacted(rs, e, uid)
  {
    if ChipHighlighted(rs, e, uid) {
      var i :| 0 <= i < |rs| && rs[i].emoji == e && IsHighlighted(rs[i], uid);
      FindMember(rs, rs[i]);
    }
    if Reacted(rs, e, uid) {
      var x := FindReaction(rs, e).value;
      var i :| 0 <= i < |rs| && rs[i] == x;
      assert rs[i].emoji == e && IsHighlighted(rs[i], uid);
    }
  }

  /**
    Clicking a chip (or picking its emoji) flips the clicking user's highlight
    on that emoji and no other highlight, for any viewer.
   */
  lemma HighlightToggles(rs: seq<Reaction>, e: string, uid: UserId, e': string, viewer: UserId)
    requires ReactionsOk(rs)
    ensures ChipHighlighted(ToggleReaction(rs, e, uid), e', viewer) ==
      (ChipHighlighted(rs, e', viewer) != (e' == e && viewer == uid))
  {
    ToggleKeepsOk(rs, e, uid);
    HighlightMeansReacted(rs, e', viewer);
    HighlightMeansReacted(ToggleReaction(rs, e, uid), e', viewer);
    ToggleFlips(rs, e, uid, e', viewer);
  }

  /** The eight emojis the picker offers, in the order it lists them. */
  const PickerEmojis: seq<string> := [
    "\U{1F44D}", "\U{2764}\U{FE0F}", "\U{1F604}", "\U{1F62E}",
    "\U{1F622}", "\U{1F621}", "\U{1F44F}", "\U{1F389}"]

  /**
    The seeded thumbs-up is spelled with different characters than the
    picker's, so no picker emoji is the seeded one: picking the picker's
    thumbs-up on the second seeded message, as the user who seeded it, adds a
    second chip beside the seeded one instead of taking that user off it.
   */
  lemma PickThumbsOnSeed(ago: int -> string)
    ensures SeedThumbs !in PickerEmojis
    ensures var ms := React(Seed(ago), "general", 2.0, PickerEmojis[0], 1)["general"];
      |ms| == 3 && ms[1].id == 2.0 &&
      ms[1].reactions == [Reaction(SeedThumbs, [1], 1), Reaction(PickerEmojis[0], [1], 1)]
  {
    var t := PickerEmojis[0];
    assert |SeedThumbs| == 3 && |t| == 1;
    var g := [SeedWelcome(ago), SeedPraise(ago), SeedHint(ago)];
    assert React(Seed(ago), "general", 2.0, t, 1)["general"] == ToggleMessages(g, 2.0, t, 1);
    assert g[1].id == 2.0;
    ThumbsBesideSeed(SeedPraise(ago).reactions, t);
  }

  /** Toggling an emoji other than the seeded one adds its chip after the seeded chip. */
  lemma ThumbsBesideSeed(rs: seq<Reaction>, t: string)
    requires rs == [Reaction(SeedThumbs, [1], 1)] && t != SeedThumbs
    ensures ToggleReaction(rs, t, 1) == [Reaction(SeedThumbs, [1], 1), Reaction(t, [1], 1)]
  {
    assert FindReaction(rs, t).None? by {
      assert FindReaction(rs[1..], t).None?;
    }
  }

  // ---------------------------------------------------------------------------
  // Composer and picker rules

  /** Enter submits; Shift+Enter does not (the text area inserts a line break instead). */
  predicate SubmitsOnKey(key: string, shiftKey: bool)
  {
    key == "Enter" && !shiftKey
  }

  /** The smile button of message `id`: opens the picker on `id`, or closes it when it is already open there. */
  function PickerAfterClick(open: Option<MessageId>, id: MessageId): Option<MessageId>
  {
    if open == Some(id) then None else Some(id)
  }

  /**
    The picker is open on at most one message; a click on `id` shows it on
    `id` exactly when it was not showing there, and a second click on the
    same button closes it.
   */
  lemma PickerClicks(open: Option<MessageId>, id: MessageId, other: MessageId)
    ensures PickerAfterClick(open, id) == Some(id) <==> open != Some(id)
    ensures PickerAfterClick(open, id) != Some(other) || other == id
    ensures PickerAfterClick(PickerAfterClick(open, id), id) == if open == Some(id) then open else None
  {
  }

  // ---------------------------------------------------------------------------
  // The component's state

  class Feed {
    const store: Store
    var messageInput: string
    var showEmojiPicker: Option<MessageId>

    constructor (store: Store)
      ensures this.store == store
      ensures messageInput == "" && showEmojiPicker == None
    {
      this.store := store;
      messageInput := "";
      showEmojiPicker := None;
    }

    /** The list the feed renders. */
    function Shown(): seq<Message>
      reads this, store
    {
      ChannelList(store.messages, store.currentChannel.id)
    }

    /** The text area's change handler. */
    method SetMessageInput(value: string)
      modifies this`messageInput
      ensures messageInput == value
    {
      messageInput := value;
    }

    /**
      Submitting the composer: non-blank input is sent to the current channel
      and the input cleared; blank input sends nothing and stays as typed.
     */
    method HandleSendMessage(id: MessageId, timestamp: string) returns (sent: bool)
      requires store.Valid()
      modifies this`messageInput, store`messages
      ensures store.Valid()
      ensures sent <==> !IsBlank(old(messageInput))
      ensures store.messages == Send(old(store.messages), store.currentChannel.id, old(messageInput), store.currentUser, id, timestamp)
      ensures sent ==> messageInput == "" && Shown() == old(Shown()) + [NewMessage(store.currentUser, old(messageInput), id, timestamp)]
      ensures !sent ==> messageInput == old(messageInput) && store.messages == old(store.messages)
    {
      if Trim(messageInput) != [] {
        FeedAfterSend(store.messages, store.currentChannel.id, messageInput, store.currentUser, id, timestamp, store.currentChannel.id);
        store.SendMessage(store.currentChannel.id, messageInput, id, timestamp);
        messageInput := "";
        sent := true;
      } else {
        sent := false;
      }
    }

    /** A key press in the text area: Enter without Shift submits, anything else leaves all state alone. */
    method HandleKeyPress(key: string, shiftKey: bool, id: MessageId, timestamp: string) returns (submitted: bool, sent: bool)
      requires store.Valid()
      modifies this`messageInput, store`messages
      ensures store.Valid()
      ensures submitted <==> SubmitsOnKey(key, shiftKey)
      ensures sent ==> submitted
      ensures submitted ==> (sent <==> !IsBlank(old(messageInput)))
      ensures sent ==> messageInput == "" && Shown() == old(Shown()) + [NewMessage(store.currentUser, old(messageInput), id, timestamp)]
      ensures !sent ==> messageInput == old(messageInput) && store.messages == old(store.messages)
    {
      submitted := SubmitsOnKey(key, shiftKey);
      sent := false;
      if submitted {
        sent := HandleSendMessage(id, timestamp);
      }
    }

    /** The smile button of message `messageId`. */
    method ClickSmile(messageId: MessageId)
      modifies this`showEmojiPicker
      ensures showEmojiPicker == PickerAfterClick(old(showEmojiPicker), messageId)
    {
      showEmojiPicker := if showEmojiPicker == Some(messageId) then None else Some(messageId);
    }

    /** An emoji in the open picker: one reaction toggle on that message, then the picker closes. */
    method ChooseEmoji(messageId: MessageId, emoji: string)
      requires store.Valid() && showEmojiPicker == Some(messageId) && emoji in PickerEmojis
      modifies this`showEmojiPicker, store`messages
      ensures store.Valid()
      ensures store.messages == React(old(store.messages), store.currentChannel.id, messageId, emoji, store.currentUser.id)
      ensures showEmojiPicker == None
    {
      store.AddReaction(store.currentChannel.id, messageId, emoji);
      showEmojiPicker := None;
    }

    /** A reaction chip under a message: toggles the current user on that emoji. */
    method ClickChip(messageId: MessageId, emoji: string)
      requires store.Valid()
      modifies store`messages
      ensures store.Valid()
      ensures store.messages == React(old(store.messages), store.currentChannel.id, messageId, emoji, store.currentUser.id)
    {
      store.AddReaction(store.currentChannel.id, messageId, emoji);
    }
  }
}
