# MemovoxEventBot session routing, in Dafny

MemovoxEventBot is a Telegram bot that collects voice notes for an event.
A participant joins an event with `/start <code>`, or by typing the code.
After that, every voice note they send is filed under that code.
The bot keeps two in-memory tables:

- `userEventMap`: user id → current event code;
- `voiceNotesByEvent`: event code → the voice file ids received for it, in arrival order.

`onUpdateReceived` classifies each update in a fixed order.
An update without a message is ignored.
Text starting with `/start` goes to the start handler, other text to the text handler, and a voice note to the voice handler.
Anything else is dropped.
Each handler changes at most one table and sends exactly one reply to the message's chat.

This project models that router and its two tables.

- `wrappers.dfy` (`Wrappers`): `Option`, standing for Java's `null`.
- `java_split.dfy` (`JavaSplit`): `text.split("\\s+", 2)` with Java's semantics.
  The text is cut at its leftmost maximal run of `[ \t\n\x0B\f\r]`.
  The remainder is kept whole, and a trailing empty remainder is kept.
  `SplitsAs` states the decomposition; `Split2Characterised` proves that the split is exactly that decomposition.
- `session_store.dfy` (`SessionStore`): the two tables as one value `Store`, with the two writes the bot performs.
  These are `put` on the user table and `computeIfAbsent(...).add` on the notes table.
  `Extends` is the "only grows" relation: no user entry disappears, and every list keeps its old contents as a prefix.
- `router.dfy` (`Router`): the specification of one update.
  `Step` gives the new tables and the reply sent, as a function of the old tables.
  It also holds the three handlers and the exact reply texts (`ReplyText`).
- `event_bot.dfy` (`EventBot`): the bot as a class.
  The two tables are map fields, and the four methods update them in place like the Java handlers.
  Each method is proved to leave exactly the state and reply that `Router` prescribes.
- `router_properties.dfy` (`RouterProperties`): the router's promises as lemmas over `Step`.
  These cover dispatch order, each handler's effect, and whole runs of updates (`Run`).
- `scenarios.dfy` (`Scenarios`): concrete conversations, including the edge cases of the `/start` split.

Three behaviours of the code worth knowing:

- The code accepts an empty event code: `"/start "` splits into `["/start", ""]`, and `""` is stored as the user's code.
- The code's `/start` test is a plain, case-sensitive prefix test on the whole text.
  So `"/startfoo"` gets the welcome prompt, and `"/startfoo bar"` joins code `"bar"`.
- The code has no operation that reads the voice notes back.
  `SessionStore.Submissions` exists only to state what `computeIfAbsent(...).add` does (the old list or `[]`, then the new id).

## Model

| member | source | states |
|---|---|---|
| JavaSplit.FirstWhitespace | src/main/java/com/mvx/memovoxeventbot/MemovoxEventBot.java:90 | where the leftmost `\s+` match starts: no whitespace before the returned index, and whitespace at it unless it is the end of the text |
| JavaSplit.LeadingWhitespace | src/main/java/com/mvx/memovoxeventbot/MemovoxEventBot.java:90 | how far the greedy `\s+` match reaches: all whitespace up to it, and a non-whitespace character (or the end) right after |
| JavaSplit.Split2 | src/main/java/com/mvx/memovoxeventbot/MemovoxEventBot.java:90 | `split("\\s+", 2)` gives one part, the text itself, exactly when the text has no whitespace; otherwise two parts that `SplitsAs` the text (head, maximal whitespace run, tail kept whole) |
| JavaSplit.SplitsAsUnique | src/main/java/com/mvx/memovoxeventbot/MemovoxEventBot.java:90 | a text decomposes into head, maximal whitespace run and tail in at most one way |
| JavaSplit.Split2Characterised | src/main/java/com/mvx/memovoxeventbot/MemovoxEventBot.java:90 | any such decomposition of the text is exactly the split's result `[head, tail]` |
| SessionStore.EventCodeOf | src/main/java/com/mvx/memovoxeventbot/MemovoxEventBot.java:122 | `userEventMap.get`: a code is found exactly when the user has an entry, and it is that entry (`None` stands for `null`) |
| SessionStore.SetEventCode | src/main/java/com/mvx/memovoxeventbot/MemovoxEventBot.java:106 | `put`: afterwards the user's code is the new one whatever it was before; every other user's code and the notes table are unchanged |
| SessionStore.AppendVoice | src/main/java/com/mvx/memovoxeventbot/MemovoxEventBot.java:166 | `computeIfAbsent(...).add`: the code's list exists and is the old list (or `[]`) followed by the file id; every other list and the user table are unchanged |
| SessionStore.WritesExtend | src/main/java/com/mvx/memovoxeventbot/MemovoxEventBot.java:106-166 | neither write removes a user entry, an event entry or a list element |
| SessionStore.AppendTwiceKeepsBoth | src/main/java/com/mvx/memovoxeventbot/MemovoxEventBot.java:166 | no deduplication: the same file id sent twice is stored twice, in order |
| Router.ReplyText | src/main/java/com/mvx/memovoxeventbot/MemovoxEventBot.java:95-170 | the seven reply texts; a reply naming a code quotes it verbatim right after its fixed opening, and each kind of reply ends in its own fixed sentence |
| Router.ReplyTextInjective | src/main/java/com/mvx/memovoxeventbot/MemovoxEventBot.java:95-170 | the seven reply texts are pairwise different, and a quoted code can be read back from its reply: equal texts mean equal replies |
| Router.StartCommand | src/main/java/com/mvx/memovoxeventbot/MemovoxEventBot.java:88-112 | `handleStartCommand`: `Welcome` exactly when the text has no whitespace, with no write; otherwise `Joined(code)`, where `code` is the tail of the text's split and is put as the user's code |
| Router.TextMessage | src/main/java/com/mvx/memovoxeventbot/MemovoxEventBot.java:117-138 | `handleTextMessage`: a user without a code gets the whole text as code and `CodeSet(text)`; a user with one keeps it, and the reply quotes it |
| Router.VoiceNote | src/main/java/com/mvx/memovoxeventbot/MemovoxEventBot.java:143-172 | `handleVoiceNote`: null payload gives `NoValidVoice` and no write; no code gives `NoEvent` and no write; otherwise the file id is appended to the user's event list and `Saved` is sent; the user table never changes |
| Router.Step | src/main/java/com/mvx/memovoxeventbot/MemovoxEventBot.java:61-82 | a reply is sent iff the update is a message with text or voice, always to that message's chat; without a reply nothing changes; the tables only grow (`Extends`) |
| EventBot.MemovoxEventBot.constructor | src/main/java/com/mvx/memovoxeventbot/MemovoxEventBot.java:40-43 | both tables start empty |
| EventBot.MemovoxEventBot.OnUpdateReceived | src/main/java/com/mvx/memovoxeventbot/MemovoxEventBot.java:61-82 | the early-return dispatch leaves the fields and returns the message sent exactly as `Step` prescribes from the old fields |
| EventBot.MemovoxEventBot.HandleStartCommand | src/main/java/com/mvx/memovoxeventbot/MemovoxEventBot.java:88-112 | splits the text; without an argument only the welcome prompt is sent; otherwise the argument is put as the user's code and `Joined` is sent, to the message's chat |
| EventBot.MemovoxEventBot.HandleTextMessage | src/main/java/com/mvx/memovoxeventbot/MemovoxEventBot.java:117-138 | a user without a code gets the whole text as code and `CodeSet`; a user with one keeps it and is told it |
| EventBot.MemovoxEventBot.HandleVoiceNote | src/main/java/com/mvx/memovoxeventbot/MemovoxEventBot.java:143-172 | null voice first, then a missing code, each answered without a write; otherwise the file id is appended to the user's event list and `Saved` is sent |
| RouterProperties.IgnoredUpdate | src/main/java/com/mvx/memovoxeventbot/MemovoxEventBot.java:61-82 | no message, or a message with neither text nor voice: both tables unchanged and nothing sent |
| RouterProperties.TextTakesPrecedence | src/main/java/com/mvx/memovoxeventbot/MemovoxEventBot.java:69-81 | for a message with text, the outcome does not depend on its voice part, and the reply is one of the four text replies |
| RouterProperties.VoiceOnlyWithoutText | src/main/java/com/mvx/memovoxeventbot/MemovoxEventBot.java:69-81 | a voice reply (`NoValidVoice`, `NoEvent`, `Saved`) is only ever sent for a message without text that has a voice part |
| RouterProperties.StartWithoutArgument | src/main/java/com/mvx/memovoxeventbot/MemovoxEventBot.java:88-102 | `/start` followed by text without whitespace (`"/start"`, `"/startfoo"`) sends the welcome prompt and changes no table |
| RouterProperties.StartWithArgument | src/main/java/com/mvx/memovoxeventbot/MemovoxEventBot.java:88-112 | `/start`-prefixed text that splits as head, whitespace run and `code` stores `code` for the sender, overwriting any old code, sends `Joined(code)`; other users' codes and the notes table are unchanged |
| RouterProperties.StartJoinsRemainder | src/main/java/com/mvx/memovoxeventbot/MemovoxEventBot.java:90-111 | `"/start" + whitespace + code` joins everything after the whitespace run, internal whitespace included, `""` when only whitespace follows |
| RouterProperties.FreeTextSetsCode | src/main/java/com/mvx/memovoxeventbot/MemovoxEventBot.java:117-130 | non-`/start` text from a user without a code becomes their code whole and untrimmed, with reply `CodeSet(text)` |
| RouterProperties.FreeTextKeepsCode | src/main/java/com/mvx/memovoxeventbot/MemovoxEventBot.java:131-137 | non-`/start` text from a user with a code changes nothing and the reply quotes the existing code |
| RouterProperties.VoiceRefused | src/main/java/com/mvx/memovoxeventbot/MemovoxEventBot.java:143-162 | a null voice payload gets `NoValidVoice` whether or not the user has a code; a voice note from a user without a code gets `NoEvent`; neither table changes |
| RouterProperties.VoiceSaved | src/main/java/com/mvx/memovoxeventbot/MemovoxEventBot.java:164-171 | a voice note from a user with code `c` makes `c`'s list the old list plus the file id at the end; other lists and all codes unchanged; reply `Saved` |
| RouterProperties.CodeOnlyFromOwnText | src/main/java/com/mvx/memovoxeventbot/MemovoxEventBot.java:61-138 | a user without a code gains one only from a text message they sent themselves |
| RouterProperties.RunExtends | src/main/java/com/mvx/memovoxeventbot/MemovoxEventBot.java:61-172 | over any sequence of updates both tables only grow and no stored list loses or reorders an element |
| RouterProperties.RunReplyCount | src/main/java/com/mvx/memovoxeventbot/MemovoxEventBot.java:61-82 | over any sequence of updates, exactly one reply is sent per message with text or voice |
| RouterProperties.StepKeepsNoEmptyList | src/main/java/com/mvx/memovoxeventbot/MemovoxEventBot.java:166 | no update leaves an empty voice list: a list is created only together with its first note |
| RouterProperties.RunKeepsNoEmptyList | src/main/java/com/mvx/memovoxeventbot/MemovoxEventBot.java:61-172 | over any run from tables without empty lists, no empty list appears |
| RouterProperties.RunFromEmptyHasNoEmptyList | src/main/java/com/mvx/memovoxeventbot/MemovoxEventBot.java:40-172 | from the empty start, a code's voice list is absent until its first note arrives, never present and empty |
| RouterProperties.NoCodeWithoutText | src/main/java/com/mvx/memovoxeventbot/MemovoxEventBot.java:106-126 | a user without a code who sends no text never gets one, whatever other updates arrive |
| Scenarios.StartAloneWelcomes | src/main/java/com/mvx/memovoxeventbot/MemovoxEventBot.java:71-101 | `"/start"` and `"/startfoo"` both get the welcome prompt and set no code |
| Scenarios.StartJoinsCode | src/main/java/com/mvx/memovoxeventbot/MemovoxEventBot.java:86-111 | `"/start Birthday_2025"` stores `"Birthday_2025"` as the user's code and replies `Joined("Birthday_2025")` |
| Scenarios.StartJoinsEmptyCode | src/main/java/com/mvx/memovoxeventbot/MemovoxEventBot.java:90-106 | `"/start "` stores the empty code and replies `Joined("")` |
| Scenarios.StartKeepsInnerWhitespace | src/main/java/com/mvx/memovoxeventbot/MemovoxEventBot.java:90-106 | `"/start \t My Party "` stores `"My Party "` as the user's code and replies `Joined("My Party ")` |
| Scenarios.StartWithGluedToken | src/main/java/com/mvx/memovoxeventbot/MemovoxEventBot.java:71-106 | `"/startfoo bar"` goes to the start handler, stores `"bar"` as the user's code and replies `Joined("bar")` |
| Scenarios.FreeTextThenVoice | src/main/java/com/mvx/memovoxeventbot/MemovoxEventBot.java:117-171 | from empty tables: typed code `"MyWeddingXYZ"` is set, a later `"hello"` is refused, and voice note `"AAEE123"` becomes that event's only note |
| Scenarios.VoiceWithoutCode | src/main/java/com/mvx/memovoxeventbot/MemovoxEventBot.java:153-161 | from empty tables, a voice note is refused with `NoEvent` and stored nowhere |

## Left out

- Telegram transport (`TelegramLongPollingBot`, `execute`, lines 177-187): a send is modelled as the returned `Outgoing` (chat id and reply), with no effect on the tables. A failed delivery is caught and logged by the code and never changes state, so the model omits it.
- `getBotUsername` and `getBotToken` (lines 45-55): a constant and an environment read.
- `main` and bot registration (lines 190-198): process start-up.
- Concurrency: the tables are plain unsynchronised `HashMap`s. The model handles one update at a time.
- The tables are `static` in the code, so all bot objects share them. The model gives one bot object the two tables as its own fields.
- `hasMessage()`, `hasText()` and `hasVoice()` are library methods whose code is not part of this model. A message's `text` is present exactly when `hasText()` holds. Its voice part is `NoVoice` when `hasVoice()` is false, `NullVoice` when `hasVoice()` holds but `getVoice()` returns null, and otherwise `Voice(fileId)`. The model therefore also admits an empty text, which the text handler would store as the code `""`; if the library's `hasText()` rejects empty text, that input never reaches `handleTextMessage`, and the model over-approximates harmlessly.
- A null sender (`getFrom()` returning null) is not guarded by the code. The model assumes every message has a sender id.
- A null `getFileId()` would be stored as `null` by the code. In the model a file id is always a string.
- User and chat ids are Java `Long`s. They are only compared and passed on, so the model uses unbounded integers. Java strings are UTF-16; the model uses Dafny characters, which matters to neither the whitespace class nor the prefix test.
