# Conversation store and message feed of a chat client, in Dafny

This project models the state core of a single-window chat client (a clone of a team
chat application's interface). The **conversation store** (`src/context/AppContext.jsx`)
owns three pieces of state:

- a mapping from channel id to the ordered list of that channel's messages;
- the acting user, one of two fixed users;
- the channel on view.

It offers `sendMessage`, `switchUser`, `addReaction` and `setCurrentChannel`, and it
hydrates the mapping from saved text on start-up. The **message feed**
(`src/components/MainContent.jsx`) reads that state. It shows the current channel's list,
groups consecutive messages of one sender under a single avatar/name header, highlights
the reaction chips of the viewing user, and keeps two pieces of local state: the
composer's input text and the emoji picker (closed, or open on one message).

Layout:

- `option.dfy`: module `Wrappers`, the `Option` datatype used for JavaScript's
  `undefined`/`null` results.
- `text.dfy`: module `Text`, the JavaScript `trim` on strings. The white-space set is
  ECMAScript's WhiteSpace and LineTerminator code points.
- `app_context.dfy`: module `AppContext`. It holds the datatypes (`User`, `Channel`,
  `Reaction`, `Message`, `MessageMap`) and the fixed user and channel tables. It also
  holds the seed and hydration, each transition as a pure function (`Send`,
  `ToggleReaction`, `React`), and the lemmas about them. Class `Store` holds the three
  state fields; its methods replace them the way the provider's state setters do.
- `main_content.dfy`: module `MainContent`. It holds the feed's pure rules (the shown
  list, avatar grouping, chip highlight, picker click, the Enter rule) with their lemmas.
  Class `Feed` holds the input text and the picker state and calls into a `Store`.

The invariants of stored data (`AppContext.StoreOk`):

- every reaction has `count == |users|`, `count > 0`, and distinct users;
- emojis are unique within one message;
- message text is never blank and is already trimmed (`Text.IsTrimmed`: no white space
  at either end, which `Text.TrimmedIffFixed` proves is the same as `trim` changing
  nothing).

A second invariant, `AppContext.SendersKnown`, says that every message's sender snapshot
(id, name and avatar) is one of the two fixed users. The seed satisfies both invariants,
and both `sendMessage` and `addReaction` preserve them. The second one relies on the
store's own invariant `Store.Valid`: the acting user is always a fixed user. Data parsed
from storage is taken as it is, so the `Store` methods promise that the invariants are
kept *if* they held before the call.

Four behaviours of the code are easy to misread; the model follows the code:

- Seeding happens when the saved value is *falsy*. That covers both a missing key and an
  empty string (`src/context/AppContext.jsx:52`), not only a missing key. A saved `{}`
  is restored as the empty mapping and is not reseeded.
- `addReaction` on a channel that has no list does change state: the channel gets an
  empty list (`src/context/AppContext.jsx:180`).
- Two toggles in a row restore a message's reactions exactly only when the user had not
  reacted before (`AppContext.ToggleTwiceRestores`). Starting from "reacted", two toggles
  restore who reacted with what (`AppContext.ToggleTwiceSameReactors`) but not the order.
  The general reordering is stated by `ReaddMovesUserToEnd` and
  `ReaddMovesReactionToEnd`. Two concrete lemmas exhibit it on small lists:
  `ToggleTwiceReordersUsers` and `ToggleTwiceReordersReactions`.
- The seed's reaction emojis are not real emojis. `src/context/AppContext.jsx` holds them
  as the UTF-8 bytes of 👋 and 👍 decoded as Windows-1252 (lines 71 and 82; the welcome
  text on line 68 ends the same way). Byte 0x9F became U+0178, and the thumbs-up's last
  byte, 0x8D, which Windows-1252 leaves undefined, is lost. The model keeps these exact code points
  (`AppContext.SeedWave`, `AppContext.SeedThumbs`). None of them is one of the picker's
  eight emojis (`src/components/MainContent.jsx:58`). So picking 👍 on the second seeded
  message, as the user who seeded its thumbs-up, adds a second chip beside it instead of
  removing that user (`MainContent.PickThumbsOnSeed`).

## Model

| member | source | states |
|---|---|---|
| `Text.Trim` | src/context/AppContext.jsx:117 | the trimmed text is empty exactly when the input is all white space, and otherwise does not start with white space |
| `Text.TrimEnds` | src/context/AppContext.jsx:124 | a non-empty trimmed text neither starts nor ends with white space |
| `Text.TrimIsPadded` | src/context/AppContext.jsx:124 | trimming removes only white space, and only at the two ends: the input is the result with white space before and after it |
| `Text.TrimmedIffFixed` | src/context/AppContext.jsx:124 | a text has no white space at either end exactly when trimming it changes nothing |
| `Text.TrimIdempotent` | src/context/AppContext.jsx:124 | stored message text is already trimmed: trimming it again changes nothing |
| `AppContext.FindUser` | src/context/AppContext.jsx:136 | `find` by id returns a listed user with that id, and returns nothing exactly when no listed user has it |
| `AppContext.FindKnownUser` | src/context/AppContext.jsx:6-19 | of the fixed users, only ids 1 and 2 are found, each naming its own entry |
| `AppContext.SeedOk` | src/context/AppContext.jsx:61-106 | the seed has exactly the channels `general` and `development`. Its messages and reactions satisfy every invariant, count equal to users and trimmed text included, and every sender snapshot is one of the fixed users |
| `AppContext.HydrateCases` | src/context/AppContext.jsx:50-109 | a missing or empty saved value gives the seed; text that fails to parse gives the empty mapping; otherwise the parsed mapping is used as it is |
| `AppContext.SendEffect` | src/context/AppContext.jsx:116-133 | blank content leaves the mapping unchanged. Otherwise one message is appended at the end of the channel's list, which is created if absent. The new message has the trimmed text, no reactions, and the sender's id, name and avatar. Other channels and earlier messages are untouched |
| `AppContext.SendKeepsOk` | src/context/AppContext.jsx:119-132 | sending preserves every invariant of the stored data |
| `AppContext.SendKeepsSendersKnown` | src/context/AppContext.jsx:119-126 | a send by one of the fixed users keeps every stored sender snapshot a fixed user's |
| `AppContext.AppendKeepsSendersKnown` | src/context/AppContext.jsx:129-132 | appending a message from a fixed user to one channel's list keeps every sender snapshot a fixed user's |
| `AppContext.SendTwiceInOrder` | src/context/AppContext.jsx:129-132 | two sends to one channel end it with the two messages in call order. Each message carries the sender current at its own call, so a user switch in between affects only the later one |
| `AppContext.FindReaction` | src/context/AppContext.jsx:147 | the search finds nothing exactly when no reaction has the emoji; what it finds is a member with that emoji |
| `AppContext.FindReactionFirst` | src/context/AppContext.jsx:147 | like `find`, the search returns the first reaction with the emoji, even when the emoji occurs more than once |
| `AppContext.RemoveUser` | src/context/AppContext.jsx:156 | the filter keeps exactly the users other than the given one, and never lengthens the list |
| `AppContext.KeepPositive` | src/context/AppContext.jsx:158 | the filter keeps exactly the reactions whose count is positive |
| `AppContext.ToggleNewEmoji` | src/context/AppContext.jsx:171-176 | for an emoji not yet on the message, the result is the old list with one reaction appended at the end: that emoji, the user alone, count 1. The invariants hold, and every other emoji's reaction is unchanged |
| `AppContext.ToggleJoin` | src/context/AppContext.jsx:160-169 | a user not yet in the emoji's users is appended to them and the count goes up by one. The result is the old list with only that reaction replaced in place, so the order is kept. The invariants hold, and other emojis are unchanged |
| `AppContext.ToggleLeave` | src/context/AppContext.jsx:150-159 | a user already in the emoji's users is removed and the count drops by one. The result is the old list with that reaction replaced in place, or cut out when its count reaches zero; the others keep their order. The invariants hold, and other emojis are unchanged |
| `AppContext.ToggleKeepsOk` | src/context/AppContext.jsx:147-176 | the toggle preserves `count == \|users\|`, distinct users, non-empty reactions and emoji uniqueness |
| `AppContext.ToggleFlips` | src/context/AppContext.jsx:147-176 | after the toggle, the acting user has reacted with the emoji exactly when they had not before; every other (emoji, user) pair keeps its state |
| `AppContext.ToggleRemovesEmptied` | src/context/AppContext.jsx:150-158 | when the acting user was the emoji's only reactor, the emoji is no longer in the message's reaction list |
| `AppContext.ToggleTwiceRestores` | src/context/AppContext.jsx:150-176 | starting from "not reacted", two consecutive toggles restore the message's reactions exactly |
| `AppContext.ToggleTwiceSameReactors` | src/context/AppContext.jsx:150-176 | from any starting point, two toggles keep the invariants and restore who reacted with which emoji |
| `AppContext.ReaddMovesUserToEnd` | src/context/AppContext.jsx:150-169 | when others still react with the emoji, leaving and re-joining keeps the reaction in its place, with the same count, but moves the user to the end of its users |
| `AppContext.ReaddMovesReactionToEnd` | src/context/AppContext.jsx:150-176 | when the user was the emoji's only reactor, leaving and re-joining cuts the reaction out and re-creates it at the end of the list, the others keeping their order |
| `AppContext.ToggleTwiceReordersUsers` | src/context/AppContext.jsx:150-169 | one example of the user moving to the end: on `[Reaction("a", [1, 2], 2)]`, user 1 toggling twice gives users `[2, 1]`, so the list is not restored exactly |
| `AppContext.ToggleTwiceReordersReactions` | src/context/AppContext.jsx:150-176 | one example of the reaction moving to the end: on reactions `a` by user 1 and `b` by user 2, user 1 toggling `a` twice puts `a` after `b`, so the list is not restored exactly |
| `AppContext.AddReactionEffect` | src/context/AppContext.jsx:142-181 | only the given channel changes; a channel without a list gets an empty one. In the channel, the length is kept, and so is every message whose id differs. Every message with the id (ids need not be unique) gets its reactions toggled and keeps all its other fields |
| `AppContext.AddReactionUnknownId` | src/context/AppContext.jsx:145-180 | a message id that matches nothing in an existing channel leaves the whole mapping unchanged |
| `AppContext.AddReactionKeepsOk` | src/context/AppContext.jsx:142-181 | `addReaction` preserves every invariant of the stored data |
| `AppContext.ReactKeepsSendersKnown` | src/context/AppContext.jsx:142-181 | `addReaction` keeps every stored sender snapshot a fixed user's |
| `AppContext.AddReactionFlips` | src/context/AppContext.jsx:145-176 | on each message with the id, `addReaction` flips only whether the acting user has reacted with the emoji |
| `AppContext.FormatTime` | src/context/AppContext.jsx:184-194 | a time from today is rendered as the time text alone; any other time as the date text, a space, and the time text |
| `AppContext.Store.constructor` | src/context/AppContext.jsx:44-109 | the store starts with the first user and the first channel, and with the hydrated mapping |
| `AppContext.Store.SendMessage` | src/context/AppContext.jsx:116-133 | the new mapping is `Send` of the old one with the current user; user and channel are not touched; both invariants of the stored data are preserved, and the acting user stays a fixed user |
| `AppContext.Store.SwitchUser` | src/context/AppContext.jsx:135-140 | ids 1 and 2 select that user and any other id changes nothing. Messages are not touched, so earlier messages keep their sender snapshot |
| `AppContext.Store.AddReaction` | src/context/AppContext.jsx:142-182 | the new mapping is `React` of the old one for the current user's id; both invariants of the stored data are preserved, and the acting user stays a fixed user |
| `AppContext.Store.SetCurrentChannel` | src/context/AppContext.jsx:45 | the channel on view is replaced, with no check, and nothing else changes |
| `MainContent.FeedAfterSend` | src/components/MainContent.jsx:31 | the list shown for a channel is its list, or empty when it has none. After a send, only the target channel's shown list changes, gaining the new message, and only when the text is not blank |
| `MainContent.FeedAfterReaction` | src/components/MainContent.jsx:31 | reacting keeps every shown list's length and each message's id, sender and text |
| `MainContent.Collapse` | src/components/MainContent.jsx:83-84 | the run-collapsed sender list is no longer than the input, has no equal neighbours, and keeps the first and last sender |
| `MainContent.HeadersFollowRuns` | src/components/MainContent.jsx:82-84 | read top to bottom, the avatar/name headers name the senders with each run of consecutive messages from one sender named once |
| `MainContent.OneHeaderPerRun` | src/components/MainContent.jsx:83-84 | a run of consecutive messages from one sender that starts where the sender changes shows exactly one header |
| `MainContent.HighlightMeansReacted` | src/components/MainContent.jsx:127 | a chip is highlighted exactly when the viewing user is among the emoji's users, that is, when they have reacted with it |
| `MainContent.HighlightToggles` | src/components/MainContent.jsx:125-127 | clicking a chip flips that user's highlight on that emoji and no other highlight, for any viewer |
| `MainContent.PickThumbsOnSeed` | src/components/MainContent.jsx:58 | the seed's thumbs-up is not among the picker's emojis, and picking the picker's 👍 on the seeded second message as user 1 leaves it with two chips: the seeded one, then the picked one |
| `MainContent.PickerClicks` | src/components/MainContent.jsx:143 | a smile click opens the picker on the message when it was closed or open elsewhere, and closes it when it was open there. The picker is never open on another message, and a second click on the same button closes it |
| `MainContent.Feed.constructor` | src/components/MainContent.jsx:26-27 | the composer starts with empty input and the picker closed |
| `MainContent.Feed.SetMessageInput` | src/components/MainContent.jsx:208 | typing replaces the input text and nothing else |
| `MainContent.Feed.HandleSendMessage` | src/components/MainContent.jsx:43-49 | the store is called only with non-blank input. Then the message is appended to the shown list and the input is cleared. Blank input sends nothing and the input stays as typed |
| `MainContent.Feed.HandleKeyPress` | src/components/MainContent.jsx:51-56 | Enter without Shift submits, with the send rule above. Shift+Enter and other keys change no state |
| `MainContent.Feed.ClickSmile` | src/components/MainContent.jsx:143 | the picker state becomes the smile-click result for that message |
| `MainContent.Feed.ChooseEmoji` | src/components/MainContent.jsx:155-158 | picking an emoji in the open picker issues one `addReaction` for that message in the current channel, then closes the picker. It is callable only while the picker is open on that message, the only time its buttons are rendered (line 149), and only with one of the picker's eight emojis (line 58) |
| `MainContent.Feed.ClickChip` | src/components/MainContent.jsx:125 | clicking a chip issues one `addReaction` for that message and emoji in the current channel |

## Left out

- Browser storage and JSON. The read (`src/context/AppContext.jsx:51`) becomes the `saved` parameter, and JSON parsing becomes the `parse` parameter, which gives None where parsing throws. The write after every change (`src/context/AppContext.jsx:112-114`) is not modelled.
- Parsed values of another shape. The model takes the result of parsing to be a mapping of messages. JSON text of another shape, such as `null` or a number, would be stored as it is by the source and is not modelled.
- Message ids and clocks. The id `Date.now() + Math.random()` and the send timestamp are parameters of the send. The seed timestamps come from an `ago` parameter. So the timestamp part of "messages are in time order" is not modelled; only list order is proved.
- `AppContext.FormatTime`: locale, time-zone and `Date` formatting are not modelled. The model captures only the branch shape, over the date and time texts and the "is today" test as inputs.
- Strings are sequences of code points. JavaScript's UTF-16 lengths are not modelled; only equality and the trim white-space set matter here.
- React plumbing: the `useApp` guard and the provider wiring (`src/context/AppContext.jsx:196-229`), re-rendering, and state-update batching.
- Feed effects and rendering: the auto-scroll and focus effects (`src/components/MainContent.jsx:34-41`) and all JSX rendering and styling. Also the browser's own handling of Shift+Enter (inserting a line break), which reaches the model only as a later `SetMessageInput`.
- `src/electron.js`, `src/App.jsx` and `src/components/Layout.jsx`: window bootstrapping and composition, with no state logic.
- `src/components/Sidebar.jsx` and `src/components/Header.jsx`: rendering. This includes the section toggle, the direct-message list without the current user, and the click-outside menu. Their calls into the store are the `Store` methods.
