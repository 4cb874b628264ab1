# Chat demo: conversation stores and display rules, in Dafny

This project models the logic of a small React chat client and proves properties of that model. It covers:

- the two conversation stores:
  - the home page keeps a map from contact id to messages;
  - the routed chat page keeps a contact list whose entries carry their own message copies, plus a displayed list;
- the message composer's trim-and-send gate;
- the case-insensitive searches of the sidebar and of the people directory, and the directory's split into contacts and others;
- the conversation pane: placeholder, presence line and per-message avatars in groups;
- the message bubble: `?` initials fallback, delivery receipts, avatar and sender-name visibility;
- the reaction strip's first three reactions and its `+N` control;
- the voice message's `m:ss` clock and play/pause dispatch;
- the typing caption;
- the settings page's nested one-key update;
- the mock dataset and the filler-conversation generator.

Pure logic is written as functions with lemmas. Each page or component whose state changes is a `class` whose methods state the new state in terms of those functions, except the sidebar and the people directory: their only state is the search box's text, which is a parameter of the filter functions. The classes are:

- `IndexPage.HomePage`
- `ChatPage.ChatScreen`
- `MessageInput.Composer`
- `Reactions.ReactionBar`
- `Settings.SettingsPage`

Values the code reads from the clock or from `Math.random` are parameters:

- message ids and timestamps;
- the canned-reply index;
- the generated messages' read flags.

A reply timer is modelled in two steps. The send returns the `PendingReply` it schedules, and `DeliverReply` applies it later.

JavaScript truthiness is explicit:

- an optional string counts as present when it is given and non-empty (`Base.IsPresent`);
- an optional flag counts as set when it is given and `true` (`Base.IsSet`).

## Model

| member | source | states |
|---|---|---|
| IndexPage.HomePage.constructor | src/pages/Index.tsx:9-10 | Nothing is selected and the store is the mock conversation map. |
| IndexPage.HomePage.HandleContactSelect | src/pages/Index.tsx:32-34 | Selects the contact; the store is unchanged. |
| IndexPage.HomePage.HandleBackToContacts | src/pages/Index.tsx:36-38 | Clears the selection; the store is unchanged. |
| IndexPage.HomePage.HandleSendMessage | src/pages/Index.tsx:40-56 | Without a (non-empty) selection nothing changes and no reply is scheduled. Otherwise the selected conversation gains the user's delivered, unread message at its end, every other conversation stays, and a reply is scheduled for that same contact with the name found for it at send time. |
| IndexPage.HomePage.DeliverReply | src/pages/Index.tsx:58-85 | The reply is appended to the conversation chosen at send time, whatever is selected now; the selection is unchanged. |
| IndexPage.HomePage.CurrentMessages | src/pages/Index.tsx:92-94 | With a selection: that contact's conversation, empty when none is stored. Without one: empty. |
| IndexPage.HomePage.SelectedContact | src/pages/Index.tsx:88-90 | A found contact is a mock contact with the selected id. Every contact with a stored conversation is found. |
| IndexPage.Conversation | src/pages/Index.tsx:52-55 | A missing conversation reads as empty; a stored one reads as itself. |
| IndexPage.AppendTo | src/pages/Index.tsx:52-55 | Only the target conversation changes, and it gains exactly the new message at its end. The key set grows by at most the target. |
| IndexPage.OwnMessage | src/pages/Index.tsx:43-50 | The user's own message is sent, delivered and not read. |
| IndexPage.ReplyMessage | src/pages/Index.tsx:59-79 | The reply is one of the eight canned texts, is received rather than sent, and is attributed to the captured sender name. |
| IndexPage.SendThenReply | src/pages/Index.tsx:52-84 | A send followed by its reply grows the conversation by exactly those two messages, in that order. |
| IndexPage.SenderName | src/pages/Index.tsx:71-78 | A name exists exactly when a mock contact has the id, and it is that contact's name. |
| ChatPage.ChatScreen.constructor | src/pages/Chat.tsx:28-33 | The contacts are the mock contacts, nothing is displayed, and the selection is the route's id. |
| ChatPage.ChatScreen.SelectedContact | src/pages/Chat.tsx:52 | A found contact is in the list and has the selected id. Any listed id is found. |
| ChatPage.ChatScreen.LoadMessages | src/pages/Chat.tsx:35-43 | As written, the display becomes the selected, listed contact's stored copy, or freshly generated filler when it has none. With no selection, or an unlisted one, nothing changes. |
| ChatPage.ChatScreen.LoadMessagesSeeded | src/pages/Chat.tsx:35-43 | Corrected load: as above, but a contact without a stored copy also stores the filler. After a load the display and the selected contact's copy agree. |
| ChatPage.ChatScreen.HandleContactSelect | src/pages/Chat.tsx:54-58 | Selects the contact and changes nothing else. |
| ChatPage.ChatScreen.HandleBack | src/pages/Chat.tsx:147-150 | Clears the selection and changes nothing else. |
| ChatPage.ChatScreen.HandleSendMessage | src/pages/Chat.tsx:60-107 | Without a selection nothing changes. Otherwise the own message is appended to the display, and the selected contact's summary and copy are rewritten. The reply is scheduled for that contact with the name and avatar it had at send time. |
| ChatPage.ChatScreen.DeliverReply | src/pages/Chat.tsx:86-123 | The reply is appended to whatever is displayed now. The contact chosen at send time gets it as its last message, and its unread count goes up by one. |
| ChatPage.UpdateMatching | src/pages/Chat.tsx:74-83 | Same length. Entries with the id are rewritten; all others are unchanged. |
| ChatPage.WithSent | src/pages/Chat.tsx:74-83 | The last message becomes the sent text with timestamp "now". The stored copy gains the message at its end. Every other field (id, name, avatar, unread count, presence, group flag, last-seen text) is kept. |
| ChatPage.WithReply | src/pages/Chat.tsx:112-122 | Like a send, and the unread count rises by exactly one. Id, name, avatar, presence, group flag and last-seen text are kept. |
| ChatPage.OwnMessage | src/pages/Chat.tsx:63-69 | Sent and delivered, read flag unset. |
| ChatPage.ReplyMessage | src/pages/Chat.tsx:87-107 | A canned text, received, delivered and read, with the sender's name and avatar captured at send time. |
| ChatPage.LoadedList | src/pages/Chat.tsx:35-43 | Defined exactly when a non-empty id is selected and listed. It is that contact's stored copy when one exists, and the generated list otherwise. |
| ChatPage.FindAfterUpdate | src/pages/Chat.tsx:74-83 | After an id-preserving update, `find` returns the updated form of what it returned before. |
| ChatPage.ReplyKeepsUnreadNonNegative | src/pages/Chat.tsx:112-122 | Replies keep every unread count non-negative. |
| ChatPage.FirstSendDropsHistory | src/pages/Chat.tsx:35-43 | As written: for a contact with no stored copy, the load shows the generated list. After one send, the reload shows only the sent message. |
| ChatPage.SeededContacts | src/pages/Chat.tsx:35-43 | Corrected seeding keeps length, ids and unread counts. Contacts that already store a copy, and every contact other than the selected one, are unchanged. A selected contact without a copy stores the generated list and nothing else changes in it. |
| ChatPage.WithFiller | src/pages/Chat.tsx:40 | The stored copy, or the generated list when there is none, becomes the stored copy. Every other field is kept. |
| ChatPage.SeedingSyncs | src/pages/Chat.tsx:35-43 | After the corrected seeding, the load is defined and the display agrees with the stored copy. |
| ChatPage.SendKeepsSync | src/pages/Chat.tsx:71-83 | A send keeps display and stored copy in agreement. The reload shows the earlier list plus the new message. |
| ChatPage.SeededSendKeepsHistory | src/pages/Chat.tsx:35-83 | With the corrected load, a send never loses what was on screen: the reload shows it followed by the new message. |
| MessageInput.SendOutcome | src/components/chat/MessageInput.tsx:20-26 | Nothing is sent exactly when the draft is whitespace only. Otherwise the sent text is non-empty, a slice of the draft with only whitespace before and after it, and starts and ends with non-whitespace. |
| MessageInput.SendOutcomeStable | src/components/chat/MessageInput.tsx:20-26 | Sending the sent text again sends it unchanged. |
| MessageInput.SendButtonMatchesOutcome | src/components/chat/MessageInput.tsx:80-82 | The send button is enabled exactly when a click would send something. |
| MessageInput.SendButtonDisabled | src/components/chat/MessageInput.tsx:82 | Defines the button's disabled state; `SendButtonMatchesOutcome` ties it to what a click sends. |
| MessageInput.SendsOnKey | src/components/chat/MessageInput.tsx:29 | Defines the key that sends: Enter without Shift; `Composer.HandleKeyPress` states its effect. |
| MessageInput.Composer.constructor | src/components/chat/MessageInput.tsx:18 | The draft starts empty. |
| MessageInput.Composer.Edit | src/components/chat/MessageInput.tsx:50 | The draft becomes the typed text. |
| MessageInput.Composer.HandleSend | src/components/chat/MessageInput.tsx:20-26 | Hands over `SendOutcome` of the draft. A send clears the draft; a blank draft is left as it was. |
| MessageInput.Composer.HandleKeyPress | src/components/chat/MessageInput.tsx:28-33 | Enter without Shift acts as a send. Any other key sends nothing and keeps the draft. |
| Text.Trim | src/components/chat/MessageInput.tsx:21 | The result is a slice of the input with only whitespace before and after it, and no leading or trailing whitespace of its own. It is empty exactly when the input is all whitespace. |
| Text.TrimIdempotent | src/components/chat/MessageInput.tsx:21 | Trimming twice equals trimming once. |
| Text.Lower | src/components/chat/Sidebar.tsx:31 | Same length, each character lower-cased. |
| Text.Upper | src/components/chat/Sidebar.tsx:35 | Same length, each character upper-cased. |
| Text.LowerIgnoresCase | src/components/chat/Sidebar.tsx:31 | Lower-casing forgets any earlier upper- or lower-casing. |
| Text.Contains | src/components/chat/Sidebar.tsx:31 | True exactly when the needle occurs as a contiguous slice. |
| Text.ContainsEmpty | src/components/chat/Sidebar.tsx:31 | Every string contains the empty string. |
| Text.SplitOnSpace | src/components/chat/Sidebar.tsx:35 | At least one piece, and no piece contains a space. |
| Text.JoinSplit | src/components/chat/Sidebar.tsx:35 | Joining the split pieces with a space gives back the input. |
| Text.JoinPlacesParts | src/components/chat/TypingIndicator.tsx:10 | Part `k` sits in the joined string at its offset. |
| Text.JoinPlacesSeparators | src/components/chat/TypingIndicator.tsx:10 | Every part except the last is followed by the separator. |
| Text.Join | src/components/chat/TypingIndicator.tsx:10 | Defines `join`: the parts in order with the separator between neighbours; `JoinSplit`, `JoinPlacesParts`, `JoinPlacesSeparators` and `JoinLength` state its properties. |
| Text.JoinLength | src/components/chat/TypingIndicator.tsx:10 | The join ends right after its last part. |
| Text.OffsetStep | src/components/chat/TypingIndicator.tsx:10 | Each part starts one part and one separator after the previous one. |
| Text.NatToDecimal | src/components/chat/VoiceMessage.tsx:28 | At least one character, all of them decimal digits, and no leading zero except in "0". |
| Text.DecimalRoundTrip | src/components/chat/VoiceMessage.tsx:28 | Reading back the rendered digits gives the number. |
| Text.PadStart | src/components/chat/VoiceMessage.tsx:28 | Width is the larger of the two. The input is a suffix, preceded only by fill characters. |
| Seqs.Filter | src/components/chat/Sidebar.tsx:30-32 | Never longer than the input, and every kept element passes the test. |
| Seqs.FilterMembers | src/components/chat/Sidebar.tsx:30-32 | An element is kept exactly when it is in the list and passes the test. |
| Seqs.FilterIsSubsequence | src/components/chat/Sidebar.tsx:30-32 | The result keeps the input's order. |
| Seqs.FilterAll | src/components/chat/Sidebar.tsx:30-32 | A test every element passes keeps the whole list. |
| Seqs.FilterSameTest | src/components/chat/Sidebar.tsx:30-32 | Tests that agree on the list keep the same elements. |
| Seqs.FilterPartition | src/pages/Contacts.tsx:85-86 | A test and its negation split the list into disjoint parts whose multisets add up to the list's. |
| Sidebar.FilterContacts | src/components/chat/Sidebar.tsx:30-32 | A contact is listed exactly when it is in the list and its lower-cased name contains the lower-cased term. |
| Sidebar.FilterContactsKeepsOrder | src/components/chat/Sidebar.tsx:30-32 | Matches keep list order. |
| Sidebar.EmptySearchShowsAll | src/components/chat/Sidebar.tsx:30-32 | An empty search lists every contact, in order. |
| Sidebar.SearchIgnoresCase | src/components/chat/Sidebar.tsx:30-32 | Upper- or lower-casing the term gives the same matches. |
| Sidebar.Rows | src/components/chat/Sidebar.tsx:82-123 | One row per match, in order, each the contact's `RowFor` row (online dot and group badge included). The initials are the name's word starts, upper-cased. A row is highlighted exactly when its id is selected. It has a badge exactly when the unread count is positive, and the badge shows that count. |
| Sidebar.RowFor | src/components/chat/Sidebar.tsx:82-123 | A contact's row: its id, its upper-cased word starts as initials, the online dot and group badge from its flags, highlighted exactly when selected, and a badge exactly when the unread count is positive, carrying that count. |
| Sidebar.AtMostOneHighlighted | src/components/chat/Sidebar.tsx:86-90 | No highlight without a selection. With distinct ids, at most one row is highlighted. |
| Initials.GetInitials | src/components/chat/Sidebar.tsx:34-36 | The upper-cased characters that start a word, in order, and no more of them than there are space-separated pieces. |
| Initials.FirstChars | src/components/chat/Sidebar.tsx:35 | At most one character per word; `FirstCharsOfSplit` equates it, over the split, with the independent word starts. |
| Initials.FirstCharsOfSplit | src/components/chat/Sidebar.tsx:35 | The first characters of the split pieces are exactly the word starts. |
| Initials.NoWordStarts | src/components/chat/Message.tsx:22-24 | There are no initials exactly when the name is all spaces. |
| Initials.InitialsExample | src/components/chat/Sidebar.tsx:34-36 | "Sarah Johnson" gives "SJ". |
| ContactsPage.FilterUsers | src/pages/Contacts.tsx:80-83 | A user matches exactly when the lower-cased name or username contains the lower-cased term. |
| ContactsPage.EmptySearchListsAll | src/pages/Contacts.tsx:80-83 | An empty search lists everyone, in order. |
| ContactsPage.FilterUsersKeepsOrder | src/pages/Contacts.tsx:80-83 | Matches keep list order. |
| ContactsPage.Split | src/pages/Contacts.tsx:85-86 | The sections partition the matches. A user is in "My Contacts" exactly when `isContact` is true, and in the other section otherwise, including when the flag is missing. |
| ContactsPage.SectionsKeepOrder | src/pages/Contacts.tsx:85-86 | Each section keeps the match order. |
| ContactsPage.NoUsersFoundMeansNothingShown | src/pages/Contacts.tsx:242 | When the empty-result line shows, both sections are empty. |
| ContactsPage.DirectorySections | src/pages/Contacts.tsx:30-86 | Without a search the page shows three contacts and two other users. |
| ContactsPage.UserStatus | src/pages/Contacts.tsx:145-150 | "Online" exactly when online. "Offline" exactly when offline with no last-seen text. Otherwise "Last seen " followed by that text. |
| ContactsPage.ShowNoUsersFound | src/pages/Contacts.tsx:242 | Defines when the empty-result line shows: no user matches and the term is non-empty; `NoUsersFoundMeansNothingShown` states what follows. |
| Presence.StatusText | src/components/chat/ChatWindow.tsx:79-85 | "Online" exactly when online. "Offline" exactly when offline with a missing or empty last-seen text. Otherwise "Last seen " followed by that text. |
| Presence.StatusTextDistinguishes | src/components/chat/ChatWindow.tsx:79-85 | Equal lines mean the same state and, for last-seen, the same text. |
| ChatWindow.Render | src/components/chat/ChatWindow.tsx:38-119 | Placeholder exactly when there is no contact. The header has the contact's name, its initials and the presence line. There is one bubble per message, in order. No avatar appears outside groups or on own messages. In a group, the first received message shows an avatar, and later received ones show one exactly when the previous sender name differs. |
| ChatWindow.ShowAvatar | src/components/chat/ChatWindow.tsx:109-110 | Defines the avatar rule per message: group chat, received, and first or after a different sender name; `OneAvatarPerRun`, `DirectChatShowsNoSender` and `Render` state its consequences. |
| ChatWindow.OneAvatarPerRun | src/components/chat/ChatWindow.tsx:108-110 | A run of messages with one sender name shows no avatar after its first message. |
| ChatWindow.DirectChatShowsNoSender | src/components/chat/ChatWindow.tsx:108-110 | Outside a group, no bubble shows an avatar or a sender name. |
| ChatWindow.TeamThreadAvatars | src/components/chat/ChatWindow.tsx:108-110 | In the stored team thread, every received message shows an avatar and the user's own message does not. |
| MessageView.AvatarText | src/components/chat/Message.tsx:22-24 | Never empty: "?" for an all-space name, otherwise the upper-cased word starts. |
| MessageView.SenderAvatarText | src/components/chat/Message.tsx:37 | A missing or empty sender name shows "?"; a present one shows its avatar text. |
| MessageView.ShowsAvatar | src/components/chat/Message.tsx:33 | Defines when a bubble draws the avatar: asked to, and not the user's own message; `SenderNameNeedsAvatar` states what follows. |
| MessageView.ShowsSenderName | src/components/chat/Message.tsx:50 | Defines when a bubble prints the sender name: a received message, asked to show the avatar, with a present name; `SenderNameNeedsAvatar` states what follows. |
| MessageView.AvatarTextExamples | src/components/chat/Message.tsx:22-24 | "" gives "?"; "Sarah Johnson" gives "SJ". |
| MessageView.ReceiptFor | src/components/chat/Message.tsx:67-76 | No marker on received messages. On own messages: the read marker if read (whatever the delivery flag), the delivered marker if delivered and unread, and a single check otherwise. |
| MessageView.StoredReceipts | src/components/chat/Message.tsx:67-76 | The stored Sarah thread shows read, none, delivered, none. |
| MessageView.SenderNameNeedsAvatar | src/components/chat/Message.tsx:33-54 | A sender name only appears beside an avatar, and neither appears on own messages. |
| Reactions.Visible | src/components/chat/MessageReactions.tsx:26 | A prefix of the reactions: all of them when expanded, otherwise the first three (or fewer). |
| Reactions.MoreCount | src/components/chat/MessageReactions.tsx:50-58 | "+N" shows exactly when there are more than three and the strip is collapsed, with N positive. |
| Reactions.VisiblePlusHidden | src/components/chat/MessageReactions.tsx:26-58 | Shown plus "+N" equals the total. The hidden ones are exactly those after the shown prefix. |
| Reactions.Render | src/components/chat/MessageReactions.tsx:26-58 | Nothing is rendered exactly for an empty list. Otherwise the strip is the visible prefix (all reactions when expanded, the first three otherwise) together with the "+N" count. |
| Reactions.ReactionBar.constructor | src/components/chat/MessageReactions.tsx:18-24 | The strip starts collapsed. |
| Reactions.ReactionBar.ShowAll | src/components/chat/MessageReactions.tsx:55 | Clicking "+N" expands the strip. |
| Reactions.ReactionBar.Click | src/components/chat/MessageReactions.tsx:43 | A click forwards the message id and the clicked reaction's emoji, and changes nothing. |
| VoiceMessage.SecondsField | src/components/chat/VoiceMessage.tsx:28 | Exactly two digits, denoting the seconds. |
| VoiceMessage.ParseTime | src/components/chat/VoiceMessage.tsx:25-29 | Reads an `m:ss` clock back; it succeeds only on the clock's shape. |
| VoiceMessage.FormatTime | src/components/chat/VoiceMessage.tsx:25-29 | The minutes, a colon, and two digits of seconds below 60. Reading the clock back gives the input. |
| VoiceMessage.FormatTimeExamples | src/components/chat/VoiceMessage.tsx:25-29 | 0 gives "0:00" and 65 gives "1:05". |
| VoiceMessage.FormatTimeInjective | src/components/chat/VoiceMessage.tsx:25-29 | Distinct durations show distinct clocks. |
| VoiceMessage.ShownTime | src/components/chat/VoiceMessage.tsx:83 | The formatted clock of the duration when paused and of the current time when playing, so `FormatTime`'s two-digit seconds, round trip and injectivity apply to what is shown. |
| VoiceMessage.PlayingShowsZero | src/components/chat/VoiceMessage.tsx:23 | While playing the clock reads "0:00", because the current time is never advanced. |
| VoiceMessage.TogglePlay | src/components/chat/VoiceMessage.tsx:31-37 | Pause is invoked only while playing and play only while paused. A missing callback means no call. |
| TypingIndicator.Caption | src/components/chat/TypingIndicator.tsx:6-11 | Nothing when hidden. The anonymous caption when there are no names. "X is typing..." for one name. For several, a caption ending in " are typing..." whose length is exactly the last name's end plus that suffix, so with `CaptionListsNames` nothing but the names and their separators precede it. |
| TypingIndicator.CaptionListsNames | src/components/chat/TypingIndicator.tsx:9-11 | Every name appears in order, at increasing offsets, each but the last followed by ", ". |
| Settings.Spread | src/pages/Settings.tsx:58 | A group spreads its fields; a missing entry or a boolean spreads nothing; a string spreads one field per character, keyed by its index. |
| Settings.CharFields | src/pages/Settings.tsx:58 | The keys are exactly the decimal indices of the characters from the start index on, and key `i` holds character `i`. |
| Settings.Updated | src/pages/Settings.tsx:48-62 | With an empty category, only the top-level key changes. Otherwise only the category changes: it becomes the spread of the old entry with the value under the key, so an existing group keeps its other fields. |
| Settings.SameValueKeepsRecord | src/pages/Settings.tsx:48-62 | Setting an option to its current value changes nothing. |
| Settings.UpdateIdempotent | src/pages/Settings.tsx:48-62 | Applying a change twice equals applying it once. |
| Settings.UpdatesCommute | src/pages/Settings.tsx:48-62 | Changes to two different keys of one group commute. |
| Settings.ControlsKeepLayout | src/pages/Settings.tsx:103-268 | A change made by one of the page's controls, applied to any record laid out like the initial one, keeps that layout: the same top-level keys, groups in the same places, and the same option names in each group. |
| Settings.ReachableKeepsLayout | src/pages/Settings.tsx:48-268 | Any run of control changes from a record with the initial layout, in particular from the initial settings, ends with that layout. |
| Settings.SettingsPage.constructor | src/pages/Settings.tsx:31-46 | Starts from the initial settings. |
| Settings.SettingsPage.HandleSettingChange | src/pages/Settings.tsx:48-68 | The new settings are `Updated` of the old ones. |
| Settings.SettingsPage.HandleDeleteAccount | src/pages/Settings.tsx:70-77 | The settings are unchanged. |
| MockData.FindContact | src/pages/Index.tsx:71 | Found exactly when some entry has the id, and then it is the first such entry. |
| MockData.MockContactIdsDistinct | src/data/mockData.ts:24-82 | Mock contact ids are distinct and unread counts are non-negative. |
| MockData.MockConversationsBelongToContacts | src/data/mockData.ts:84-165 | Every stored conversation's key is a mock contact's id. |
| MockData.SarahIds | src/data/mockData.ts:85-116 | Sarah's conversation holds m1 to m4, in order. |
| MockData.TeamIds | src/data/mockData.ts:117-147 | The team conversation holds m5 to m8, in order. |
| MockData.MikeIds | src/data/mockData.ts:148-164 | Mike's conversation holds m9 and m10, in order. |
| MockData.IdsAcrossConversations | src/data/mockData.ts:84-165 | Conversations with those id ranges never share an id. |
| MockData.MockMessageIdsDistinct | src/data/mockData.ts:84-165 | No two stored messages share an id, within one conversation or across two. |
| MockData.GenerateMockMessages | src/data/mockData.ts:176-197 | Eight messages, one per filler text, in order. Message `i` is the user's own exactly when `i % 3 == 0`; the others come from "Contact". All are delivered. |
| MockData.GeneratedSentCount | src/data/mockData.ts:188-196 | Exactly three generated messages are the user's own. |

## Left out

- Timers and randomness:
  - The reply delay is not modelled.
  - `Math.random` for the reply choice and read flags, and the clock for ids and timestamps, are parameters.
  - A reply index outside 0..7 cannot occur, because `Math.floor(Math.random() * 8)` is below 8.
- Browser state is not modelled:
  - the theme flag and `localStorage`;
  - `document` class toggles;
  - `window.history` pushes;
  - scrolling;
  - the textarea's height adjustment;
  - toasts;
  - the mobile/desktop layout choice.
- The chat page's effect that copies a changed route id into the selection (src/pages/Chat.tsx:45-50) is not modelled. The route id is only the constructor's argument.
- React's effect scheduling is not modelled. `ChatScreen.LoadMessages` is a method that the page runs after every change of selection or contact list.
- The search boxes of the sidebar and of the people directory are not held as state. Their text is the `term` parameter of `Sidebar.FilterContacts`, `Sidebar.Rows` and `ContactsPage.FilterUsers`.
- The people directory's add, remove and start-chat handlers only show toasts, and its user list has no setter. They change no state and are not modelled.
- The reaction picker button (`onShowReactionPicker`) is not modelled. It only forwards the message id.
- The voice message's random wave heights are not modelled.
- `Initials.FirstChars`, `Initials.GetInitials`: a string is a sequence of Unicode scalar values, while JavaScript's `n[0]` takes one UTF-16 code unit. A name starting with a character outside the Basic Multilingual Plane (an emoji, say) gets the whole character as its initial here, but half a surrogate pair in the browser.
- `Text.Lower`, `Text.Upper`: only ASCII letters change case. JavaScript maps all of Unicode.
- `Text.Trim`: the whitespace set is written out explicitly, with no Unicode database behind it.
- `VoiceMessage.FormatTime`: takes whole, non-negative seconds below 2^53. Fractional or negative durations, for which `Math.floor` and `%` matter, are not modelled. Neither are durations from 2^53 seconds up, where JavaScript numbers stop being exact integers; from 10^21 minutes up, the template literal would also print the minutes in exponent notation.
- `Settings.Updated`: values are booleans or strings. These are the only values the page's controls produce.
- `MockData.MockMessageIdsDistinct`: stated over the three stored conversations concatenated in key order ("1", "2", "3"), not over the values of the map itself.
- `IndexPage.HomePage.SelectedContact`: states only that a found contact matches the selected id, and that every id with a stored conversation is found. It does not state which contact `find` returns for ids without a stored conversation; `MockData.FindContact` states that.

## Findings

| source | as written | input that shows it | evidently intended | confidence | as-written member | corrected member |
|---|---|---|---|---|---|---|
| src/pages/Chat.tsx:35-43 | The load effect depends on the contact list, and a contact with no stored conversation is shown generated filler that is not stored. The first send stores only the new message, so the effect then replaces the eight filler messages on screen with that one message. | Open `/chat/1` (no mock contact carries a `messages` copy, so 8 generated messages are shown), then send "hi". The display then holds just ["hi"]. | A send appends to what is on screen, so the display becomes the earlier list followed by the new message. | not executed | ChatPage.FirstSendDropsHistory | ChatPage.SeededSendKeepsHistory |
