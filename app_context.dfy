/**
  The conversation store of the chat client: a mapping from channel id to the
  ordered list of that channel's messages, the user who is acting, and the
  channel on view. The transitions are pure functions over those values; the
  class `Store` holds the three pieces of state and replaces them as the
  provider's state setters do.
 */
module AppContext {
  import opened Wrappers
  import opened Text

  type UserId = int
  /** Message ids are JavaScript numbers made from a clock and a random fraction. */
  type MessageId = real
  type ChannelId = string

  datatype User = User(id: UserId, name: string, avatar: string, status: string)

  datatype Channel = Channel(id: ChannelId, name: string, kind: string, description: string)

  /** One emoji on one message: who reacted with it, and how many of them. */
  datatype Reaction = Reaction(emoji: string, users: seq<UserId>, count: int)

  /** A message keeps a snapshot of its sender's name and avatar as of sending. */
  datatype Message = Message(
    id: MessageId,
    userId: UserId,
    userName: string,
    userAvatar: string,
    content: string,
    timestamp: string,
    reactions: seq<Reaction>)

  type MessageMap = map<ChannelId, seq<Message>>

  const KnownUsers: seq<User> := [
    User(1, "Sarah Connor", "https://i.pravatar.cc/40?img=1", "online"),
    User(2, "John Doe", "https://i.pravatar.cc/40?img=2", "online")
  ]

  const DefaultChannels: seq<Channel> := [
    Channel("general", "general", "public", "General discussion"),
    Channel("random", "random", "public", "Random chat"),
    Channel("development", "development", "public", "Development discussions")
  ]

  // ---------------------------------------------------------------------------
  // Invariants of the stored data

  ghost predicate NoDuplicates(s: seq<UserId>)
  {
    forall i, j :: 0 <= i < j < |s| ==> s[i] != s[j]
  }

  /** A reaction's count is the number of its users, who are distinct; an empty reaction does not exist. */
  ghost predicate ReactionOk(r: Reaction)
  {
    r.count == |r.users| && r.count > 0 && NoDuplicates(r.users)
  }

  /** No emoji appears twice on one message. */
  ghost predicate EmojisUnique(rs: seq<Reaction>)
  {
    forall i, j :: 0 <= i < j < |rs| ==> rs[i].emoji != rs[j].emoji
  }

  ghost predicate ReactionsOk(rs: seq<Reaction>)
  {
    (forall r :: r in rs ==> ReactionOk(r)) && EmojisUnique(rs)
  }

  /**
    Stored text is not blank and is trimmed (by `TrimmedIffFixed`, trimming it
    again changes nothing), and the reactions are well formed.
   */
  ghost predicate MessageOk(m: Message)
  {
    !IsBlank(m.content) && IsTrimmed(m.content) && ReactionsOk(m.reactions)
  }

  ghost predicate StoreOk(mm: MessageMap)
  {
    forall c, m :: c in mm && m in mm[c] ==> MessageOk(m)
  }

  /** A message's sender snapshot is the id, name and avatar of one of the known users. */
  ghost predicate SenderKnown(m: Message)
  {
    exists j :: 0 <= j < |KnownUsers| && m.userId == KnownUsers[j].id &&
      m.userName == KnownUsers[j].name && m.userAvatar == KnownUsers[j].avatar
  }

  ghost predicate SendersKnown(mm: MessageMap)
  {
    forall c, m :: c in mm && m in mm[c] ==> SenderKnown(m)
  }

  // ---------------------------------------------------------------------------
  // Users

  /** `users.find(u => u.id === id)`: the first user with that id, if any. */
  function FindUser(users: seq<User>, id: UserId): (r: Option<User>)
    ensures r.Some? ==> r.value in users && r.value.id == id
    ensures r.None? <==> forall u :: u in users ==> u.id != id
  {
    if users == [] then None
    else if users[0].id == id then Some(users[0])
    else FindUser(users[1..], id)
  }

  /** Only the ids 1 and 2 name a user, and each names the one user with that id. */
  lemma FindKnownUser(id: UserId)
    ensures FindUser(KnownUsers, id) ==
      if id == 1 then Some(KnownUsers[0]) else if id == 2 then Some(KnownUsers[1]) else None
  {
    assert KnownUsers[1..][1..] == [];
  }

  // ---------------------------------------------------------------------------
  // Hydration

  /** The seed's reaction emoji, as the source file spells them. */
  const SeedWave: string := "\U{00F0}\U{0178}\U{2018}\U{2039}"
  const SeedThumbs: string := "\U{00F0}\U{0178}\U{2018}"

  /**
    The sample conversation a fresh install starts with; `ago(ms)` is the ISO
    time `ms` milliseconds before now. The emoji in the seed are the code points
    the source file holds there: the UTF-8 bytes of a party popper, a waving
    hand and a thumbs-up decoded as Windows-1252 (byte 0x9F became U+0178, and
    the thumbs-up's last byte, 0x8D, which Windows-1252 leaves undefined, is
    lost), so none of them is the emoji the picker offers.
   */
  function Seed(ago: int -> string): (mm: MessageMap)
  {
    map[
      "general" := [SeedWelcome(ago), SeedPraise(ago), SeedHint(ago)],
      "development" := [SeedProgress(ago)]
    ]
  }

  function SeedWelcome(ago: int -> string): Message
  {
    Message(1.0, 1, "Sarah Connor", "https://i.pravatar.cc/40?img=1",
      "Hey team! Welcome to our Slack clone! " + "\U{00F0}\U{0178}\U{017D}\U{2030}", ago(3600000),
      [Reaction(SeedWave, [2], 1)])
  }

  function SeedPraise(ago: int -> string): Message
  {
    Message(2.0, 2, "John Doe", "https://i.pravatar.cc/40?img=2",
      "This looks amazing! " + "Great work on building this.", ago(3000000),
      [Reaction(SeedThumbs, [1], 1)])
  }

  function SeedHint(ago: int -> string): Message
  {
    Message(3.0, 1, "Sarah Connor", "https://i.pravatar.cc/40?img=1",
      "Thanks! Try switching between users " + "using the dropdown in the top right corner.", ago(2700000),
      [])
  }

  function SeedProgress(ago: int -> string): Message
  {
    Message(4.0, 2, "John Doe", "https://i.pravatar.cc/40?img=2",
      "The real-time messaging is working great! " + "Messages persist across user switches.", ago(1800000),
      [])
  }

  /**
    The mapping the store starts from. `saved` is what storage holds under the
    messages key (None when nothing is there); `parse` is JSON parsing, None
    when it throws. A missing or empty saved text seeds the sample data.
   */
  function Hydrate(saved: Option<string>, parse: string -> Option<MessageMap>, ago: int -> string): MessageMap
  {
    match saved
    case None => Seed(ago)
    case Some(text) =>
      if text == "" then Seed(ago)
      else match parse(text)
        case None => map[]
        case Some(mm) => mm
  }

  /** The seed holds the channels general and development, and its data keeps every invariant. */
  lemma SeedOk(ago: int -> string)
    ensures Seed(ago).Keys == {"general", "development"}
    ensures StoreOk(Seed(ago))
    ensures SendersKnown(Seed(ago))
  {
    var g, d := [SeedWelcome(ago), SeedPraise(ago), SeedHint(ago)], [SeedProgress(ago)];
    SeedWelcomeOk(ago);
    SeedPraiseOk(ago);
    SeedHintOk(ago);
    SeedProgressOk(ago);
    TwoChannelsOk(Seed(ago), g, d);
  }

  lemma SeedWelcomeOk(ago: int -> string)
    ensures MessageOk(SeedWelcome(ago)) && SenderKnown(SeedWelcome(ago))
  {
    TrimmedConcat("Hey team! Welcome to our Slack clone! ", "\U{00F0}\U{0178}\U{017D}\U{2030}");
    assert SeedWelcome(ago).userId == KnownUsers[0].id;
  }

  lemma SeedPraiseOk(ago: int -> string)
    ensures MessageOk(SeedPraise(ago)) && SenderKnown(SeedPraise(ago))
  {
    TrimmedConcat("This looks amazing! ", "Great work on building this.");
    assert SeedPraise(ago).userId == KnownUsers[1].id;
  }

  lemma SeedHintOk(ago: int -> string)
    ensures MessageOk(SeedHint(ago)) && SenderKnown(SeedHint(ago))
  {
    TrimmedConcat("Thanks! Try switching between users ", "using the dropdown in the top right corner.");
    assert SeedHint(ago).userId == KnownUsers[0].id;
  }

  lemma SeedProgressOk(ago: int -> string)
    ensures MessageOk(SeedProgress(ago)) && SenderKnown(SeedProgress(ago))
  {
    TrimmedConcat("The real-time messaging is working great! ", "Messages persist across user switches.");
    assert SeedProgress(ago).userId == KnownUsers[1].id;
  }

  /** A mapping of two channels whose messages are all well formed and sent by known users. */
  lemma TwoChannelsOk(mm: MessageMap, g: seq<Message>, d: seq<Message>)
    requires mm == map["general" := g, "development" := d]
    requires forall i :: 0 <= i < |g| ==> MessageOk(g[i]) && SenderKnown(g[i])
    requires forall i :: 0 <= i < |d| ==> MessageOk(d[i]) && SenderKnown(d[i])
    ensures mm.Keys == {"general", "development"}
    ensures StoreOk(mm) && SendersKnown(mm)
  {
    forall c, m | c in mm && m in mm[c] ensures MessageOk(m) && SenderKnown(m) {
      var i :| 0 <= i < |mm[c]| && mm[c][i] == m;
    }
  }

  /**
    What the store starts with: the seed when storage holds no text, nothing
    when the text does not parse, otherwise exactly what was parsed, so a
    saved mapping (an empty one included) is restored and not reseeded.
   */
  lemma HydrateCases(saved: Option<string>, parse: string -> Option<MessageMap>, ago: int -> string)
    ensures (saved == None || saved == Some("")) ==>
      Hydrate(saved, parse, ago) == Seed(ago) && StoreOk(Hydrate(saved, parse, ago)) && SendersKnown(Hydrate(saved, parse, ago))
    ensures saved.Some? && saved.value != "" && parse(saved.value) == None ==> Hydrate(saved, parse, ago) == map[]
    ensures forall mm :: saved.Some? && saved.value != "" && parse(saved.value) == Some(mm) ==> Hydrate(saved, parse, ago) == mm
  {
    SeedOk(ago);
  }

  // ---------------------------------------------------------------------------
  // Sending

  /** `prev[channelId] || []`: a channel's list, empty when the channel has none yet. */
  function ChannelList(mm: MessageMap, c: ChannelId): seq<Message>
  {
    if c in mm then mm[c] else []
  }

  /** The message `sendMessage` builds: sender snapshot from `user`, trimmed text, no reactions. */
  function NewMessage(user: User, content: string, id: MessageId, timestamp: string): Message
  {
    Message(id, user.id, user.name, user.avatar, Trim(content), timestamp, [])
  }

  /** `sendMessage(c, content)` as `user`, with the id and the timestamp the clock supplies. */
  function Send(mm: MessageMap, c: ChannelId, content: string, user: User, id: MessageId, timestamp: string): MessageMap
  {
    if Trim(content) == [] then mm
    else mm[c := ChannelList(mm, c) + [NewMessage(user, content, id, timestamp)]]
  }

  /**
    Blank content changes nothing. Otherwise exactly one message is appended at
    the end of `c`'s list (created if absent), carrying the trimmed text, no
    reactions and the sender's id, name and avatar; every other channel and
    every earlier message stays as it was.
   */
  lemma SendEffect(mm: MessageMap, c: ChannelId, content: string, user: User, id: MessageId, timestamp: string)
    ensures IsBlank(content) ==> Send(mm, c, content, user, id, timestamp) == mm
    ensures !IsBlank(content) ==>
      var r := Send(mm, c, content, user, id, timestamp);
      && r.Keys == mm.Keys + {c}
      && (forall k :: k in mm && k != c ==> r[k] == mm[k])
      && |r[c]| == |ChannelList(mm, c)| + 1
      && r[c][..|r[c]| - 1] == ChannelList(mm, c)
      && var m := r[c][|r[c]| - 1];
         m.id == id && m.timestamp == timestamp && m.reactions == [] &&
         m.userId == user.id && m.userName == user.name && m.userAvatar == user.avatar &&
         m.content == Trim(content) && !IsBlank(m.content)
  {
    if !IsBlank(content) {
      TrimmedNotBlank(content);
      var r := Send(mm, c, content, user, id, timestamp);
      assert r[c][..|r[c]| - 1] == ChannelList(mm, c);
    }
  }

  /** Sending keeps every invariant of the stored data. */
  lemma SendKeepsOk(mm: MessageMap, c: ChannelId, content: string, user: User, id: MessageId, timestamp: string)
    requires StoreOk(mm)
    ensures StoreOk(Send(mm, c, content, user, id, timestamp))
  {
    if Trim(content) != [] {
      TrimmedNotBlank(content);
      TrimEnds(content);
      var r := Send(mm, c, content, user, id, timestamp);
      forall k, m | k in r && m in r[k] ensures MessageOk(m) {
        if k == c && m !in ChannelList(mm, c) {
          assert m == NewMessage(user, content, id, timestamp);
        }
      }
    }
  }

  /** Sending as one of the known users keeps every stored sender snapshot a known user's. */
  lemma SendKeepsSendersKnown(mm: MessageMap, c: ChannelId, content: string, user: User, id: MessageId, timestamp: string)
    requires SendersKnown(mm) && user in KnownUsers
    ensures SendersKnown(Send(mm, c, content, user, id, timestamp))
  {
    if Trim(content) != [] {
      var n := NewMessage(user, content, id, timestamp);
      var j :| 0 <= j < |KnownUsers| && KnownUsers[j] == user;
      assert n.userId == KnownUsers[j].id;
      AppendKeepsSendersKnown(mm, c, n);
    }
  }

  /** Appending a message from a known user to one channel keeps every sender known. */
  lemma AppendKeepsSendersKnown(mm: MessageMap, c: ChannelId, n: Message)
    requires SendersKnown(mm) && SenderKnown(n)
    ensures SendersKnown(mm[c := ChannelList(mm, c) + [n]])
  {
    var r := mm[c := ChannelList(mm, c) + [n]];
    forall k, m | k in r && m in r[k] ensures SenderKnown(m) {
      if k == c && m !in ChannelList(mm, c) {
        assert m == n;
      }
    }
  }

  /**
    Two sends to one channel land in call order at its end, each with the
    sender current at its own call: switching user in between changes only the
    later message.
   */
  lemma SendTwiceInOrder(mm: MessageMap, c: ChannelId, a: string, b: string, ua: User, ub: User,
                         ia: MessageId, ib: MessageId, ta: string, tb: string)
    requires !IsBlank(a) && !IsBlank(b)
    ensures ChannelList(Send(Send(mm, c, a, ua, ia, ta), c, b, ub, ib, tb), c) ==
      ChannelList(mm, c) + [NewMessage(ua, a, ia, ta), NewMessage(ub, b, ib, tb)]
  {
    var na, nb := NewMessage(ua, a, ia, ta), NewMessage(ub, b, ib, tb);
    var m1 := Send(mm, c, a, ua, ia, ta);
    SendAppends(mm, c, a, ua, ia, ta);
    SendAppends(m1, c, b, ub, ib, tb);
    assert ChannelList(mm, c) + [na] + [nb] == ChannelList(mm, c) + [na, nb];
  }

  lemma SendAppends(mm: MessageMap, c: ChannelId, content: string, user: User, id: MessageId, timestamp: string)
    requires !IsBlank(content)
    ensures ChannelList(Send(mm, c, content, user, id, timestamp), c) ==
      ChannelList(mm, c) + [NewMessage(user, content, id, timestamp)]
  {
  }

  // ---------------------------------------------------------------------------
  // Reactions

  /** `reactions.find(r => r.emoji === emoji)`. */
  function FindReaction(rs: seq<Reaction>, emoji: string): (r: Option<Reaction>)
    ensures r.None? <==> forall i :: 0 <= i < |rs| ==> rs[i].emoji != emoji
    ensures r.Some? ==> r.value in rs && r.value.emoji == emoji
  {
    if rs == [] then None
    else if rs[0].emoji == emoji then Some(rs[0])
    else FindReaction(rs[1..], emoji)
  }

  /** Like `find`, the search returns the first reaction carrying the emoji, duplicates or not. */
  lemma {:induction false} FindReactionFirst(rs: seq<Reaction>, e: string, k: nat)
    requires k < |rs| && rs[k].emoji == e
    requires forall j :: 0 <= j < k ==> rs[j].emoji != e
    ensures FindReaction(rs, e) == Some(rs[k])
  {
    if k > 0 {
      FindReactionFirst(rs[1..], e, k - 1);
    }
  }

  /** `users.filter(x => x !== uid)`. */
  function RemoveUser(users: seq<UserId>, uid: UserId): (r: seq<UserId>)
    ensures forall x :: x in r <==> x in users && x != uid
    ensures |r| <= |users|
  {
    if users == [] then []
    else (if users[0] == uid then [] else [users[0]]) + RemoveUser(users[1..], uid)
  }

  /** Every reaction with this emoji gets `uid` appended and its count raised by one. */
  function AddUserTo(rs: seq<Reaction>, emoji: string, uid: UserId): seq<Reaction>
  {
    seq(|rs|, i requires 0 <= i < |rs| =>
      if rs[i].emoji == emoji then rs[i].(users := rs[i].users + [uid], count := rs[i].count + 1) else rs[i])
  }

  /** Every reaction with this emoji loses `uid` and has its count lowered by one. */
  function DropUserFrom(rs: seq<Reaction>, emoji: string, uid: UserId): seq<Reaction>
  {
    seq(|rs|, i requires 0 <= i < |rs| =>
      if rs[i].emoji == emoji then rs[i].(users := RemoveUser(rs[i].users, uid), count := rs[i].count - 1) else rs[i])
  }

  /** `reactions.filter(r => r.count > 0)`. */
  function KeepPositive(rs: seq<Reaction>): (r: seq<Reaction>)
    ensures forall x :: x in r <==> x in rs && x.count > 0
    ensures |r| <= |rs|
  {
    if rs == [] then []
    else (if rs[0].count > 0 then [rs[0]] else []) + KeepPositive(rs[1..])
  }

  /**
    The reaction toggle `addReaction` applies to one message's reactions on
    behalf of user `uid`: a new emoji is appended with `uid` alone; otherwise
    `uid` is taken out of the emoji's users if present (and emptied reactions
    dropped) or appended if absent.
   */
  function ToggleReaction(rs: seq<Reaction>, emoji: string, uid: UserId): seq<Reaction>
  {
    match FindReaction(rs, emoji)
    case None => rs + [Reaction(emoji, [uid], 1)]
    case Some(existing) =>
      if uid in existing.users then KeepPositive(DropUserFrom(rs, emoji, uid))
      else AddUserTo(rs, emoji, uid)
  }

  /** `uid` has reacted with `emoji`: the emoji's reaction lists them. */
  predicate Reacted(rs: seq<Reaction>, emoji: string, uid: UserId)
  {
    var f := FindReaction(rs, emoji);
    f.Some? && uid in f.value.users
  }

  /** `addReaction(c, messageId, emoji)` as user `uid`: every message of `c` with that id is toggled. */
  function React(mm: MessageMap, c: ChannelId, messageId: MessageId, emoji: string, uid: UserId): MessageMap
  {
    mm[c := if c in mm then ToggleMessages(mm[c], messageId, emoji, uid) else []]
  }

  function ToggleMessages(ms: seq<Message>, messageId: MessageId, emoji: string, uid: UserId): seq<Message>
  {
    seq(|ms|, i requires 0 <= i < |ms| =>
      if ms[i].id == messageId then ms[i].(reactions := ToggleReaction(ms[i].reactions, emoji, uid)) else ms[i])
  }

  // ----- facts about the helpers

  /** With unique emojis, the reaction found for an emoji is the one member carrying it. */
  lemma FindMember(rs: seq<Reaction>, x: Reaction)
    requires EmojisUnique(rs) && x in rs
    ensures FindReaction(rs, x.emoji) == Some(x)
  {
    var k :| 0 <= k < |rs| && rs[k] == x;
    var y := FindReaction(rs, x.emoji).value;
    var j :| 0 <= j < |rs| && rs[j] == y;
    assert j == k;
  }

  /** Two lists with unique emojis holding the same reactions for `e` find the same reaction for it. */
  lemma FindSame(s: seq<Reaction>, t: seq<Reaction>, e: string)
    requires EmojisUnique(s) && EmojisUnique(t)
    requires forall x: Reaction :: x.emoji == e ==> (x in s <==> x in t)
    ensures FindReaction(s, e) == FindReaction(t, e)
  {
    if FindReaction(s, e).Some? {
      FindMember(s, FindReaction(s, e).value);
      FindMember(t, FindReaction(s, e).value);
    } else if FindReaction(t, e).Some? {
      FindMember(s, FindReaction(t, e).value);
    }
  }

  lemma {:induction false} RemoveUserAbsent(users: seq<UserId>, uid: UserId)
    requires uid !in users
    ensures RemoveUser(users, uid) == users
  {
    if users != [] {
      RemoveUserAbsent(users[1..], uid);
    }
  }

  lemma {:induction false} RemoveUserAppend(a: seq<UserId>, b: seq<UserId>, uid: UserId)
    ensures RemoveUser(a + b, uid) == RemoveUser(a, uid) + RemoveUser(b, uid)
  {
    if a != [] {
      assert (a + b)[1..] == a[1..] + b;
      RemoveUserAppend(a[1..], b, uid);
      var h := if a[0] == uid then [] else [a[0]];
      assert a + b != [] && (a + b)[0] == a[0];
      assert RemoveUser(a + b, uid) == h + RemoveUser(a[1..] + b, uid);
      assert RemoveUser(a, uid) == h + RemoveUser(a[1..], uid);
    } else {
      assert a + b == b;
    }
  }

  /** Filtering out a user of a duplicate-free list removes exactly one entry and keeps it duplicate-free. */
  lemma {:induction false} RemoveUserOnce(users: seq<UserId>, uid: UserId)
    requires NoDuplicates(users)
    ensures NoDuplicates(RemoveUser(users, uid))
    ensures |RemoveUser(users, uid)| == if uid in users then |users| - 1 else |users|
  {
    if users != [] {
      var rest := users[1..];
      assert NoDuplicates(rest) by {
        forall i, j | 0 <= i < j < |rest| ensures rest[i] != rest[j] { assert rest[i] == users[i + 1]; }
      }
      RemoveUserOnce(rest, uid);
      assert users[0] !in rest;
      var r := RemoveUser(users, uid);
      if users[0] != uid {
        assert r == [users[0]] + RemoveUser(rest, uid);
        forall i, j | 0 <= i < j < |r| ensures r[i] != r[j] {
          if i == 0 { assert r[j] in RemoveUser(rest, uid); }
          else { assert r[i] == RemoveUser(rest, uid)[i - 1] && r[j] == RemoveUser(rest, uid)[j - 1]; }
        }
      } else {
        assert uid !in rest;
      }
    }
  }

  lemma {:induction false} KeepPositiveAppend(a: seq<Reaction>, b: seq<Reaction>)
    ensures KeepPositive(a + b) == KeepPositive(a) + KeepPositive(b)
  {
    if a != [] {
      assert (a + b)[1..] == a[1..] + b;
      KeepPositiveAppend(a[1..], b);
      var h := if a[0].count > 0 then [a[0]] else [];
      assert a + b != [] && (a + b)[0] == a[0];
      assert KeepPositive(a + b) == h + KeepPositive(a[1..] + b);
      assert KeepPositive(a) == h + KeepPositive(a[1..]);
    } else {
      assert a + b == b;
    }
  }

  lemma {:induction false} KeepPositiveAll(rs: seq<Reaction>)
    requires forall i :: 0 <= i < |rs| ==> rs[i].count > 0
    ensures KeepPositive(rs) == rs
  {
    if rs != [] {
      KeepPositiveAll(rs[1..]);
    }
  }

  /** Filtering keeps the order, so it keeps the emojis unique. */
  lemma {:induction false} KeepPositiveUnique(rs: seq<Reaction>)
    requires EmojisUnique(rs)
    ensures EmojisUnique(KeepPositive(rs))
  {
    if rs != [] {
      var rest := rs[1..];
      UniqueTail(rs);
      KeepPositiveUnique(rest);
      var kr := KeepPositive(rest);
      if rs[0].count > 0 {
        assert KeepPositive(rs) == [rs[0]] + kr;
        forall y | y in kr ensures y.emoji != rs[0].emoji {
          var m :| 0 <= m < |rest| && rest[m] == y;
          assert rs[m + 1] == y;
        }
        UniqueCons(rs[0], kr);
      }
    }
  }

  lemma UniqueTail(rs: seq<Reaction>)
    requires rs != [] && EmojisUnique(rs)
    ensures EmojisUnique(rs[1..])
  {
    var rest := rs[1..];
    forall i, j | 0 <= i < j < |rest| ensures rest[i].emoji != rest[j].emoji { assert rest[i] == rs[i + 1]; }
  }

  lemma UniqueCons(h: Reaction, rs: seq<Reaction>)
    requires EmojisUnique(rs) && forall y :: y in rs ==> y.emoji != h.emoji
    ensures EmojisUnique([h] + rs)
  {
    var r := [h] + rs;
    forall i, j | 0 <= i < j < |r| ensures r[i].emoji != r[j].emoji {
      assert r[j] == rs[j - 1];
      if i == 0 {
        assert rs[j - 1] in rs;
      } else {
        assert r[i] == rs[i - 1];
      }
    }
  }

  // ----- the toggle, case by case

  /** No reaction for `e` yet: one with `uid` alone is appended. */
  lemma ToggleNewEmoji(rs: seq<Reaction>, e: string, uid: UserId)
    requires ReactionsOk(rs) && FindReaction(rs, e).None?
    ensures ToggleReaction(rs, e, uid) == rs + [Reaction(e, [uid], 1)]
    ensures ReactionsOk(ToggleReaction(rs, e, uid))
    ensures FindReaction(ToggleReaction(rs, e, uid), e) == Some(Reaction(e, [uid], 1))
    ensures forall e' :: e' != e ==> FindReaction(ToggleReaction(rs, e, uid), e') == FindReaction(rs, e')
  {
    var n := Reaction(e, [uid], 1);
    var t := ToggleReaction(rs, e, uid);
    assert t == rs + [n];
    assert t[|rs|] == n;
    FindMember(t, n);
    forall e' | e' != e ensures FindReaction(t, e') == FindReaction(rs, e') {
      FindSame(t, rs, e');
    }
  }

  /** `uid` has not reacted with `e`: they are appended to its users and the count goes up by one. */
  lemma ToggleJoin(rs: seq<Reaction>, e: string, uid: UserId, k: nat)
    requires ReactionsOk(rs) && k < |rs| && rs[k].emoji == e && uid !in rs[k].users
    ensures ToggleReaction(rs, e, uid) == rs[k := Reaction(e, rs[k].users + [uid], rs[k].count + 1)]
    ensures ReactionsOk(ToggleReaction(rs, e, uid))
    ensures FindReaction(ToggleReaction(rs, e, uid), e) ==
      Some(Reaction(e, rs[k].users + [uid], rs[k].count + 1))
    ensures forall e' :: e' != e ==> FindReaction(ToggleReaction(rs, e, uid), e') == FindReaction(rs, e')
  {
    FindMember(rs, rs[k]);
    var t := ToggleReaction(rs, e, uid);
    assert t == AddUserTo(rs, e, uid);
    assert forall i :: 0 <= i < |rs| && i != k ==> t[i] == rs[i];
    var users := rs[k].users + [uid];
    assert NoDuplicates(users) by {
      forall i, j | 0 <= i < j < |users| ensures users[i] != users[j] {
        if j < |users| - 1 { assert users[i] == rs[k].users[i] && users[j] == rs[k].users[j]; }
        else { assert users[i] in rs[k].users; }
      }
    }
    assert t[k] == Reaction(e, users, rs[k].count + 1);
    assert t == rs[k := t[k]];
    forall x | x in t ensures ReactionOk(x) {
      var i :| 0 <= i < |t| && t[i] == x;
      if i != k { assert x in rs; }
    }
    FindMember(t, t[k]);
    forall e' | e' != e ensures FindReaction(t, e') == FindReaction(rs, e') {
      forall x: Reaction | x.emoji == e' ensures x in t <==> x in rs {
        if x in t { var i :| 0 <= i < |t| && t[i] == x; assert rs[i] == x; }
        if x in rs { var i :| 0 <= i < |rs| && rs[i] == x; assert t[i] == x; }
      }
      FindSame(t, rs, e');
    }
  }

  /** The reactions after `uid` is taken out of `e`'s users, before the emptied ones are filtered. */
  lemma DroppedShape(rs: seq<Reaction>, e: string, uid: UserId, k: nat)
    requires ReactionsOk(rs) && k < |rs| && rs[k].emoji == e && uid in rs[k].users
    ensures var d := DropUserFrom(rs, e, uid);
      && |d| == |rs|
      && (forall i :: 0 <= i < |rs| && i != k ==> d[i] == rs[i])
      && d[k] == Reaction(e, RemoveUser(rs[k].users, uid), rs[k].count - 1)
      && EmojisUnique(d)
      && (forall x :: x in d && x.count > 0 ==> ReactionOk(x))
  {
    var d := DropUserFrom(rs, e, uid);
    assert rs[k] in rs;
    RemoveUserOnce(rs[k].users, uid);
    assert forall i :: 0 <= i < |rs| && i != k ==> rs[i].emoji != e;
    assert EmojisUnique(d) by {
      forall i, j | 0 <= i < j < |d| ensures d[i].emoji != d[j].emoji {
        assert d[i].emoji == rs[i].emoji && d[j].emoji == rs[j].emoji;
      }
    }
    forall x | x in d && x.count > 0 ensures ReactionOk(x) {
      var i :| 0 <= i < |d| && d[i] == x;
      if i != k { assert x in rs; }
    }
  }

  /**
    `uid` has reacted with `e`: they leave its users and the count goes down
    by one; when nobody is left the reaction disappears.
   */
  lemma ToggleLeave(rs: seq<Reaction>, e: string, uid: UserId, k: nat)
    requires ReactionsOk(rs) && k < |rs| && rs[k].emoji == e && uid in rs[k].users
    ensures ToggleReaction(rs, e, uid) ==
      if rs[k].count == 1 then rs[..k] + rs[k + 1..]
      else rs[k := Reaction(e, RemoveUser(rs[k].users, uid), rs[k].count - 1)]
    ensures ReactionsOk(ToggleReaction(rs, e, uid))
    ensures FindReaction(ToggleReaction(rs, e, uid), e) ==
      if rs[k].count == 1 then None
      else Some(Reaction(e, RemoveUser(rs[k].users, uid), rs[k].count - 1))
    ensures forall e' :: e' != e ==> FindReaction(ToggleReaction(rs, e, uid), e') == FindReaction(rs, e')
  {
    LeaveShape(rs, e, uid, k);
    FindMember(rs, rs[k]);
    var d := DropUserFrom(rs, e, uid);
    var t := ToggleReaction(rs, e, uid);
    assert t == KeepPositive(d);
    DroppedShape(rs, e, uid, k);
    KeepPositiveUnique(d);
    assert ReactionsOk(t);
    LeaveFindsE(rs, e, uid, k);
    forall e' | e' != e ensures FindReaction(t, e') == FindReaction(rs, e') {
      LeaveFindsOther(rs, e, uid, k, e');
    }
  }

  /** The toggle's leave branch keeps every other reaction in place and only decides about entry `k`. */
  lemma LeaveShape(rs: seq<Reaction>, e: string, uid: UserId, k: nat)
    requires ReactionsOk(rs) && k < |rs| && rs[k].emoji == e && uid in rs[k].users
    ensures ToggleReaction(rs, e, uid) ==
      if rs[k].count == 1 then rs[..k] + rs[k + 1..]
      else rs[k := Reaction(e, RemoveUser(rs[k].users, uid), rs[k].count - 1)]
  {
    FindMember(rs, rs[k]);
    assert ToggleReaction(rs, e, uid) == KeepPositive(DropUserFrom(rs, e, uid));
    LeaveFilter(rs, e, uid, k);
    SpliceCases(rs, k, Reaction(e, RemoveUser(rs[k].users, uid), rs[k].count - 1));
  }

  /** After the drop, the filter removes entry `k` if it emptied and passes everything else through in place. */
  lemma LeaveFilter(rs: seq<Reaction>, e: string, uid: UserId, k: nat)
    requires ReactionsOk(rs) && k < |rs| && rs[k].emoji == e && uid in rs[k].users
    ensures KeepPositive(DropUserFrom(rs, e, uid)) ==
      rs[..k] + (if rs[k].count == 1 then [] else [Reaction(e, RemoveUser(rs[k].users, uid), rs[k].count - 1)]) + rs[k + 1..]
  {
    var d := DropUserFrom(rs, e, uid);
    DroppedShape(rs, e, uid, k);
    assert rs[k] in rs;
    SpliceAt(rs, d, k);
    var a, b := rs[..k], rs[k + 1..];
    assert forall i :: 0 <= i < |a| ==> a[i] in rs;
    assert forall i :: 0 <= i < |b| ==> b[i] in rs;
    PositivePart(rs, a);
    PositivePart(rs, b);
    KeepPositiveAround(a, d[k], b);
  }

  lemma PositivePart(rs: seq<Reaction>, part: seq<Reaction>)
    requires ReactionsOk(rs) && forall i :: 0 <= i < |part| ==> part[i] in rs
    ensures forall i :: 0 <= i < |part| ==> part[i].count > 0
  {
  }

  /** A sequence that differs from `s` at most at `k` is `s` with its entry `k` spliced out and the new one put in. */
  lemma SpliceAt<T>(s: seq<T>, d: seq<T>, k: nat)
    requires k < |s| == |d| && forall i :: 0 <= i < |s| && i != k ==> d[i] == s[i]
    ensures d == s[..k] + [d[k]] + s[k + 1..]
  {
  }

  lemma SpliceCases<T>(s: seq<T>, k: nat, y: T)
    requires k < |s|
    ensures s[..k] + [] + s[k + 1..] == s[..k] + s[k + 1..]
    ensures s[..k] + [y] + s[k + 1..] == s[k := y]
  {
  }

  /** Around an entry, reactions that are all positive pass the filter untouched and in place. */
  lemma KeepPositiveAround(a: seq<Reaction>, x: Reaction, b: seq<Reaction>)
    requires forall i :: 0 <= i < |a| ==> a[i].count > 0
    requires forall i :: 0 <= i < |b| ==> b[i].count > 0
    ensures KeepPositive(a + [x] + b) == a + (if x.count > 0 then [x] else []) + b
  {
    KeepPositiveAppend(a + [x], b);
    KeepPositiveAppend(a, [x]);
    KeepPositiveAll(a);
    KeepPositiveAll(b);
    assert KeepPositive([x]) == if x.count > 0 then [x] else [];
  }

  lemma LeaveFindsE(rs: seq<Reaction>, e: string, uid: UserId, k: nat)
    requires ReactionsOk(rs) && k < |rs| && rs[k].emoji == e && uid in rs[k].users
    ensures FindReaction(KeepPositive(DropUserFrom(rs, e, uid)), e) ==
      if rs[k].count == 1 then None
      else Some(Reaction(e, RemoveUser(rs[k].users, uid), rs[k].count - 1))
  {
    var d := DropUserFrom(rs, e, uid);
    var t := KeepPositive(d);
    DroppedShape(rs, e, uid, k);
    KeepPositiveUnique(d);
    if rs[k].count == 1 {
      forall i | 0 <= i < |t| ensures t[i].emoji != e {
        assert t[i] in d;
        var j :| 0 <= j < |d| && d[j] == t[i];
        assert j != k ==> d[j].emoji != e;
      }
    } else {
      assert rs[k] in rs;
      assert d[k] in t;
      FindMember(t, d[k]);
    }
  }

  lemma LeaveFindsOther(rs: seq<Reaction>, e: string, uid: UserId, k: nat, e': string)
    requires ReactionsOk(rs) && k < |rs| && rs[k].emoji == e && uid in rs[k].users && e' != e
    ensures FindReaction(KeepPositive(DropUserFrom(rs, e, uid)), e') == FindReaction(rs, e')
  {
    var d := DropUserFrom(rs, e, uid);
    var t := KeepPositive(d);
    DroppedShape(rs, e, uid, k);
    KeepPositiveUnique(d);
    forall x: Reaction | x.emoji == e' ensures x in t <==> x in rs {
      if x in t { var i :| 0 <= i < |d| && d[i] == x; assert rs[i] == x; }
      if x in rs { var i :| 0 <= i < |rs| && rs[i] == x; assert d[i] == x; }
    }
    FindSame(t, rs, e');
  }

  // ----- properties of the toggle

  /** The toggle keeps every reaction invariant: count equals users, users distinct, emojis unique, none empty. */
  lemma ToggleKeepsOk(rs: seq<Reaction>, e: string, uid: UserId)
    requires ReactionsOk(rs)
    ensures ReactionsOk(ToggleReaction(rs, e, uid))
  {
    match FindReaction(rs, e)
    case None => ToggleNewEmoji(rs, e, uid);
    case Some(x) =>
      var k :| 0 <= k < |rs| && rs[k] == x;
      if uid in x.users { ToggleLeave(rs, e, uid, k); } else { ToggleJoin(rs, e, uid, k); }
  }

  /**
    The toggle flips exactly one fact: whether `uid` has reacted with `e`.
    Every other user, on every emoji, and `uid` on every other emoji, keep
    their state.
   */
  lemma ToggleFlips(rs: seq<Reaction>, e: string, uid: UserId, e': string, v: UserId)
    requires ReactionsOk(rs)
    ensures Reacted(ToggleReaction(rs, e, uid), e', v) == (Reacted(rs, e', v) != (e' == e && v == uid))
  {
    match FindReaction(rs, e)
    case None => ToggleNewEmoji(rs, e, uid);
    case Some(x) =>
      var k :| 0 <= k < |rs| && rs[k] == x;
      if uid in x.users { LeaveFlips(rs, e, uid, k, e', v); } else { JoinFlips(rs, e, uid, k, e', v); }
  }

  lemma LeaveFlips(rs: seq<Reaction>, e: string, uid: UserId, k: nat, e': string, v: UserId)
    requires ReactionsOk(rs) && k < |rs| && rs[k].emoji == e && uid in rs[k].users
    ensures Reacted(ToggleReaction(rs, e, uid), e', v) == (Reacted(rs, e', v) != (e' == e && v == uid))
  {
    var x := rs[k];
    FindMember(rs, x);
    ToggleLeave(rs, e, uid, k);
    var t := ToggleReaction(rs, e, uid);
    if e' != e {
      assert FindReaction(t, e') == FindReaction(rs, e');
    } else if x.count == 1 {
      assert x.users == [x.users[0]];
      assert FindReaction(t, e).None?;
    } else {
      assert FindReaction(t, e).value.users == RemoveUser(x.users, uid);
    }
  }

  lemma JoinFlips(rs: seq<Reaction>, e: string, uid: UserId, k: nat, e': string, v: UserId)
    requires ReactionsOk(rs) && k < |rs| && rs[k].emoji == e && uid !in rs[k].users
    ensures Reacted(ToggleReaction(rs, e, uid), e', v) == (Reacted(rs, e', v) != (e' == e && v == uid))
  {
    var x := rs[k];
    FindMember(rs, x);
    ToggleJoin(rs, e, uid, k);
    var t := ToggleReaction(rs, e, uid);
    if e' != e {
      assert FindReaction(t, e') == FindReaction(rs, e');
    } else {
      assert FindReaction(t, e).value.users == x.users + [uid];
    }
  }

  /** Taking away the last user of a reaction removes the emoji from the message. */
  lemma ToggleRemovesEmptied(rs: seq<Reaction>, e: string, uid: UserId)
    requires ReactionsOk(rs)
    requires FindReaction(rs, e) == Some(Reaction(e, [uid], 1))
    ensures forall i :: 0 <= i < |ToggleReaction(rs, e, uid)| ==> ToggleReaction(rs, e, uid)[i].emoji != e
  {
    var x := FindReaction(rs, e).value;
    var k :| 0 <= k < |rs| && rs[k] == x;
    ToggleLeave(rs, e, uid, k);
  }

  /**
    Toggling twice from "not reacted" restores the reactions exactly: the entry
    added (or the user appended) by the first call is what the second removes.
   */
  lemma ToggleTwiceRestores(rs: seq<Reaction>, e: string, uid: UserId)
    requires ReactionsOk(rs) && !Reacted(rs, e, uid)
    ensures ToggleReaction(ToggleReaction(rs, e, uid), e, uid) == rs
  {
    match FindReaction(rs, e)
    case None => RestoreNew(rs, e, uid);
    case Some(x) =>
      var k :| 0 <= k < |rs| && rs[k] == x;
      RestoreJoined(rs, e, uid, k);
  }

  lemma RestoreNew(rs: seq<Reaction>, e: string, uid: UserId)
    requires ReactionsOk(rs) && FindReaction(rs, e).None?
    ensures ToggleReaction(ToggleReaction(rs, e, uid), e, uid) == rs
  {
    var n := Reaction(e, [uid], 1);
    var t := ToggleReaction(rs, e, uid);
    assert t == rs + [n];
    ToggleNewEmoji(rs, e, uid);
    assert FindReaction(t, e) == Some(n);
    assert uid in n.users;
    assert ToggleReaction(t, e, uid) == KeepPositive(DropUserFrom(t, e, uid));
    DropFromNew(rs, e, uid);
    KeepPositiveAppend(rs, [Reaction(e, [], 0)]);
    assert KeepPositive([Reaction(e, [], 0)]) == [];
    assert forall i :: 0 <= i < |rs| ==> rs[i] in rs;
    KeepPositiveAll(rs);
  }

  lemma DropFromNew(rs: seq<Reaction>, e: string, uid: UserId)
    requires FindReaction(rs, e).None?
    ensures DropUserFrom(rs + [Reaction(e, [uid], 1)], e, uid) == rs + [Reaction(e, [], 0)]
  {
    var d := DropUserFrom(rs + [Reaction(e, [uid], 1)], e, uid);
    assert RemoveUser([uid], uid) == [];
    assert d[|rs|] == Reaction(e, [], 0);
    assert forall i :: 0 <= i < |rs| ==> d[i] == rs[i];
  }

  lemma RestoreJoined(rs: seq<Reaction>, e: string, uid: UserId, k: nat)
    requires ReactionsOk(rs) && k < |rs| && rs[k].emoji == e && uid !in rs[k].users
    ensures ToggleReaction(ToggleReaction(rs, e, uid), e, uid) == rs
  {
    var x := rs[k];
    var t := ToggleReaction(rs, e, uid);
    ToggleJoin(rs, e, uid, k);
    FindMember(rs, x);
    assert t == AddUserTo(rs, e, uid);
    assert ToggleReaction(t, e, uid) == KeepPositive(DropUserFrom(t, e, uid));
    DropJoined(rs, e, uid, k);
    assert forall i :: 0 <= i < |rs| ==> rs[i] in rs;
    KeepPositiveAll(rs);
  }

  lemma DropJoined(rs: seq<Reaction>, e: string, uid: UserId, k: nat)
    requires ReactionsOk(rs) && k < |rs| && rs[k].emoji == e && uid !in rs[k].users
    ensures DropUserFrom(AddUserTo(rs, e, uid), e, uid) == rs
  {
    var x := rs[k];
    var d := DropUserFrom(AddUserTo(rs, e, uid), e, uid);
    RemoveUserAppend(x.users, [uid], uid);
    RemoveUserAbsent(x.users, uid);
    assert RemoveUser([uid], uid) == [];
    assert forall i :: 0 <= i < |rs| && i != k ==> rs[i].emoji != e;
    forall i | 0 <= i < |rs| ensures d[i] == rs[i] {
      if i == k { assert d[i] == Reaction(e, x.users, x.count); }
    }
  }

  /**
    From "reacted", two toggles restore who reacted with what, but not always
    the order: the user, or the whole reaction, comes back at the end.
   */
  lemma ToggleTwiceSameReactors(rs: seq<Reaction>, e: string, uid: UserId, e': string, v: UserId)
    requires ReactionsOk(rs)
    ensures ReactionsOk(ToggleReaction(ToggleReaction(rs, e, uid), e, uid))
    ensures Reacted(ToggleReaction(ToggleReaction(rs, e, uid), e, uid), e', v) == Reacted(rs, e', v)
  {
    var t := ToggleReaction(rs, e, uid);
    ToggleKeepsOk(rs, e, uid);
    ToggleKeepsOk(t, e, uid);
    ToggleFlips(rs, e, uid, e', v);
    ToggleFlips(t, e, uid, e', v);
  }

  /** The user moves to the end of the reaction's users. */
  lemma ToggleTwiceReordersUsers()
    ensures var rs := [Reaction("a", [1, 2], 2)];
      ToggleReaction(ToggleReaction(rs, "a", 1), "a", 1) == [Reaction("a", [2, 1], 2)] != rs
  {
    var rs := [Reaction("a", [1, 2], 2)];
    assert FindReaction(rs, "a") == Some(rs[0]);
    assert RemoveUser([1, 2], 1) == [2] by { assert [1, 2][1..] == [2]; }
    var d := DropUserFrom(rs, "a", 1);
    assert d == [Reaction("a", [2], 1)];
    assert KeepPositive(d) == d;
    var t := ToggleReaction(rs, "a", 1);
    assert t == [Reaction("a", [2], 1)];
    assert FindReaction(t, "a") == Some(t[0]);
    assert 1 !in t[0].users;
    var a := AddUserTo(t, "a", 1);
    assert |a| == 1 && a[0] == Reaction("a", [2] + [1], 2);
    assert [2] + [1] == [2, 1];
    assert [Reaction("a", [2, 1], 2)] != rs by { assert [Reaction("a", [2, 1], 2)][0].users[0] == 2; }
  }

  /** A reaction whose only user leaves is re-created at the end of the list. */
  lemma ToggleTwiceReordersReactions()
    ensures var rs := [Reaction("a", [1], 1), Reaction("b", [2], 1)];
      ToggleReaction(ToggleReaction(rs, "a", 1), "a", 1) == [Reaction("b", [2], 1), Reaction("a", [1], 1)] != rs
  {
    var rs := [Reaction("a", [1], 1), Reaction("b", [2], 1)];
    var t := ToggleReaction(rs, "a", 1);
    LeaveOnlyUser();
    assert FindReaction(t, "a") == None;
    assert ToggleReaction(t, "a", 1) == t + [Reaction("a", [1], 1)];
    assert [Reaction("b", [2], 1), Reaction("a", [1], 1)][0] != rs[0];
  }

  /**
    In general, leaving and re-joining an emoji others still react with keeps
    the reaction in its place but moves the user to the end of its users.
   */
  lemma ReaddMovesUserToEnd(rs: seq<Reaction>, e: string, uid: UserId, k: nat)
    requires ReactionsOk(rs) && k < |rs| && rs[k].emoji == e && uid in rs[k].users && rs[k].count > 1
    ensures ToggleReaction(ToggleReaction(rs, e, uid), e, uid) ==
      rs[k := Reaction(e, RemoveUser(rs[k].users, uid) + [uid], rs[k].count)]
  {
    ToggleLeave(rs, e, uid, k);
    var t := ToggleReaction(rs, e, uid);
    assert t[k] == Reaction(e, RemoveUser(rs[k].users, uid), rs[k].count - 1);
    assert uid !in t[k].users;
    ToggleJoin(t, e, uid, k);
  }

  /**
    In general, when the user was an emoji's only reactor, leaving and
    re-joining cuts the reaction out and re-creates it at the end of the list.
   */
  lemma ReaddMovesReactionToEnd(rs: seq<Reaction>, e: string, uid: UserId, k: nat)
    requires ReactionsOk(rs) && k < |rs| && rs[k] == Reaction(e, [uid], 1)
    ensures ToggleReaction(ToggleReaction(rs, e, uid), e, uid) == rs[..k] + rs[k + 1..] + [rs[k]]
  {
    ToggleLeave(rs, e, uid, k);
    var t := ToggleReaction(rs, e, uid);
    assert FindReaction(t, e).None?;
    ToggleNewEmoji(t, e, uid);
  }

  lemma LeaveOnlyUser()
    ensures ToggleReaction([Reaction("a", [1], 1), Reaction("b", [2], 1)], "a", 1) == [Reaction("b", [2], 1)]
  {
    var rs := [Reaction("a", [1], 1), Reaction("b", [2], 1)];
    var d := DropUserFrom(rs, "a", 1);
    assert RemoveUser([1], 1) == [];
    assert d == [Reaction("a", [], 0), Reaction("b", [2], 1)];
    assert KeepPositive(d) == [Reaction("b", [2], 1)] by {
      assert d[1..] == [Reaction("b", [2], 1)];
    }
  }

  // ----- addReaction over the whole mapping

  lemma MessageOkAt(mm: MessageMap, c: ChannelId, i: nat)
    requires StoreOk(mm) && c in mm && i < |mm[c]|
    ensures MessageOk(mm[c][i])
  {
    assert mm[c][i] in mm[c];
  }

  /**
    `addReaction` touches channel `c` only; there it keeps the length and every
    message whose id differs, and on each message with the id it toggles the
    reactions and keeps the rest. A channel without a list gets an empty one.
   */
  lemma AddReactionEffect(mm: MessageMap, c: ChannelId, mid: MessageId, e: string, uid: UserId)
    ensures var r := React(mm, c, mid, e, uid);
      && r.Keys == mm.Keys + {c}
      && (forall k :: k in mm && k != c ==> r[k] == mm[k])
      && (c !in mm ==> r[c] == [])
      && (c in mm ==> |r[c]| == |mm[c]|)
      && (c in mm ==> forall i :: 0 <= i < |mm[c]| ==>
            if mm[c][i].id == mid then
              r[c][i].reactions == ToggleReaction(mm[c][i].reactions, e, uid) &&
              r[c][i] == mm[c][i].(reactions := r[c][i].reactions)
            else r[c][i] == mm[c][i])
  {
  }

  /** A message id found nowhere in an existing channel leaves the whole mapping as it was. */
  lemma AddReactionUnknownId(mm: MessageMap, c: ChannelId, mid: MessageId, e: string, uid: UserId)
    requires c in mm && forall m :: m in mm[c] ==> m.id != mid
    ensures React(mm, c, mid, e, uid) == mm
  {
    var r := React(mm, c, mid, e, uid);
    assert r[c] == mm[c] by {
      forall i | 0 <= i < |mm[c]| ensures r[c][i] == mm[c][i] {
        assert mm[c][i] in mm[c];
      }
    }
  }

  /** `addReaction` keeps every invariant of the stored data. */
  lemma AddReactionKeepsOk(mm: MessageMap, c: ChannelId, mid: MessageId, e: string, uid: UserId)
    requires StoreOk(mm)
    ensures StoreOk(React(mm, c, mid, e, uid))
  {
    var r := React(mm, c, mid, e, uid);
    forall k, m | k in r && m in r[k] ensures MessageOk(m) {
      if k == c && c in mm {
        var i :| 0 <= i < |r[c]| && r[c][i] == m;
        MessageOkAt(mm, c, i);
        ToggledMessageOk(mm[c][i], e, uid);
      } else if k != c {
        assert m in mm[k];
      }
    }
  }

  lemma ToggledMessageOk(m: Message, e: string, uid: UserId)
    requires MessageOk(m)
    ensures MessageOk(m.(reactions := ToggleReaction(m.reactions, e, uid)))
  {
    ToggleKeepsOk(m.reactions, e, uid);
  }

  /** Reacting never touches a sender snapshot. */
  lemma ReactKeepsSendersKnown(mm: MessageMap, c: ChannelId, mid: MessageId, e: string, uid: UserId)
    requires SendersKnown(mm)
    ensures SendersKnown(React(mm, c, mid, e, uid))
  {
    var r := React(mm, c, mid, e, uid);
    forall k, m | k in r && m in r[k] ensures SenderKnown(m) {
      if k == c && c in mm {
        var i :| 0 <= i < |r[c]| && r[c][i] == m;
        assert mm[c][i] in mm[c];
        assert SenderKnown(mm[c][i]);
        var j :| 0 <= j < |KnownUsers| && mm[c][i].userId == KnownUsers[j].id &&
          mm[c][i].userName == KnownUsers[j].name && mm[c][i].userAvatar == KnownUsers[j].avatar;
        assert m.userId == KnownUsers[j].id;
      } else if k != c {
        assert m in mm[k];
      }
    }
  }

  /** On each message with the id, `addReaction` flips exactly whether `uid` reacted with `e`. */
  lemma AddReactionFlips(mm: MessageMap, c: ChannelId, mid: MessageId, e: string, uid: UserId, i: nat, e': string, v: UserId)
    requires c in mm && i < |mm[c]| && mm[c][i].id == mid && ReactionsOk(mm[c][i].reactions)
    ensures Reacted(React(mm, c, mid, e, uid)[c][i].reactions, e', v) ==
      (Reacted(mm[c][i].reactions, e', v) != (e' == e && v == uid))
  {
    ToggleFlips(mm[c][i].reactions, e, uid, e', v);
  }

  // ---------------------------------------------------------------------------
  // Time formatting

  /**
    The branch shape of `formatTime`: the locale's hour and minute alone for a
    time on today's date, the locale's date, a space and the time otherwise.
   */
  function FormatTime(isToday: bool, dateText: string, timeText: string): (r: string)
    ensures isToday ==> r == timeText
    ensures !isToday ==>
      |r| == |dateText| + 1 + |timeText| && r[..|dateText|] == dateText &&
      r[|dateText|] == ' ' && r[|dateText| + 1..] == timeText
  {
    if isToday then timeText else dateText + " " + timeText
  }

  // ---------------------------------------------------------------------------
  // The store

  class Store {
    var messages: MessageMap
    var currentUser: User
    var currentChannel: Channel

    /** The acting user is always one of the known users. */
    ghost predicate Valid()
      reads this
    {
      currentUser in KnownUsers
    }

    /** The provider as mounted: first user, first channel, and the hydrated messages. */
    constructor (saved: Option<string>, parse: string -> Option<MessageMap>, ago: int -> string)
      ensures Valid()
      ensures currentUser == KnownUsers[0] && currentChannel == DefaultChannels[0]
      ensures messages == Hydrate(saved, parse, ago)
    {
      currentUser := KnownUsers[0];
      currentChannel := DefaultChannels[0];
      messages := Hydrate(saved, parse, ago);
    }

    method SendMessage(channelId: ChannelId, content: string, id: MessageId, timestamp: string)
      requires Valid()
      modifies this`messages
      ensures Valid()
      ensures messages == Send(old(messages), channelId, content, currentUser, id, timestamp)
      ensures StoreOk(old(messages)) ==> StoreOk(messages)
      ensures SendersKnown(old(messages)) ==> SendersKnown(messages)
    {
      if StoreOk(messages) {
        SendKeepsOk(messages, channelId, content, currentUser, id, timestamp);
      }
      if SendersKnown(messages) {
        SendKeepsSendersKnown(messages, channelId, content, currentUser, id, timestamp);
      }
      messages := Send(messages, channelId, content, currentUser, id, timestamp);
    }

    /** An unknown id leaves the user as it was; messages keep their sender snapshots. */
    method SwitchUser(userId: UserId)
      requires Valid()
      modifies this`currentUser
      ensures Valid()
      ensures currentUser == if userId == 1 || userId == 2 then KnownUsers[userId - 1] else old(currentUser)
      ensures currentUser.id == userId || currentUser == old(currentUser)
    {
      FindKnownUser(userId);
      var user := FindUser(KnownUsers, userId);
      if user.Some? {
        currentUser := user.value;
      }
    }

    method AddReaction(channelId: ChannelId, messageId: MessageId, emoji: string)
      requires Valid()
      modifies this`messages
      ensures Valid()
      ensures messages == React(old(messages), channelId, messageId, emoji, currentUser.id)
      ensures StoreOk(old(messages)) ==> StoreOk(messages)
      ensures SendersKnown(old(messages)) ==> SendersKnown(messages)
    {
      if StoreOk(messages) {
        AddReactionKeepsOk(messages, channelId, messageId, emoji, currentUser.id);
      }
      if SendersKnown(messages) {
        ReactKeepsSendersKnown(messages, channelId, messageId, emoji, currentUser.id);
      }
      messages := React(messages, channelId, messageId, emoji, currentUser.id);
    }

    method SetCurrentChannel(channel: Channel)
      requires Valid()
      modifies this`currentChannel
      ensures Valid()
      ensures currentChannel == channel
    {
      currentChannel := channel;
    }
  }
}
