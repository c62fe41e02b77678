# DebateBot in Dafny

A model of the core of DebateBot, a Discord bot that argues with people.
Someone runs `/debate` in a text channel. The bot opens a thread, posts an
aggressive opening statement, and then answers every human message in that
thread with a reply streamed from a language model. While the reply
streams in, the bot edits the reply message at most once every 800 ms. A
human who concedes ("concede", "you win", "gg", "good game") gives the bot
a win. The sweep drops a debate once it has been idle for at least two
hours: it counts whole hours, truncated, and needs more than one.

Modules, one per source file, plus shared helpers:

- `DebateSession` holds the `Session` class: the per-thread turn lock, the
  tagged history (`USER: ` / `BOT: `), the last activity time and the win
  counters. It also has `getContext`, the newest entries joined by newlines.
- `DebateManager` has three parts:
  - the `Manager` class: the sessions map, `startDebate`, `handleMessage`
    and one run of the idle sweep;
  - the `Turn` class: the streaming accumulator behind the two
    `streamResponse` callbacks;
  - concession detection and the fixed prompt texts.
- `GroqClient` and `OllamaClient` model the two language-model clients:
  - the prompt each one sends;
  - the loop that turns the response body into tokens;
  - how often the completion callback runs;
  - for Ollama, the base-URL normalisation.
- `ConfigManager` models the configuration as the sequence of its nine
  field values, with `mergeMissingFields` done in place on an array and
  `register`.
- `DebateBot` has the token check and the start-up test of the entry point.
- `JavaStrings` models the `java.lang.String` operations used:
  - `startsWith`, `endsWith` and `contains`;
  - `toLowerCase` and `trim`;
  - `String.join` and `replace`.
- `Http` describes what a streaming call sees of its HTTP exchange. `Wrappers`
  holds `Option`.

Times are milliseconds passed in as parameters. A sequential call stands in
for each event handler and for each callback.

How the code behaves, in points that are easy to miss:

- **Context size.** The reply prompt holds the newest 8 history entries.
- **Lifecycle.** A debate has no closed state and no close operation.
  Starting a debate files the new session under the new thread's id and
  replaces any entry already there.
- **Win counters.** A bot reply is never checked for concession, and the
  human's win counter never changes (`Manager.HandleMessage` promises it).
- **Missing session.** A message in a thread that has no debate also gets
  the "Still thinking..." answer (`Outcome.StillThinking`).
- **Double completion.** After a non-success HTTP status, both clients run
  the completion callback twice: once in the error branch and once in
  `finally`. Only when reading the error body for the log throws is the
  first run skipped, leaving the one in `finally`. `Turn.Stream` proves the consequence: the second run adds no
  history entry, because no token arrived, and the lock ends released.
- **Doubled tag.** The user prompt of a reply is the last history entry,
  which is already tagged `USER: `. The Groq client then adds its own
  `\n\nUSER: ` before it, so the model reads `USER: USER: <message>`.
- **Failed send.** When the bot may not send into the thread, the first
  send of `handleMessage` throws and the handler only unlocks. The human's
  message stays in the history. A concession made then scores no win.
- **Unused prompts.** The entry point builds `DebateManager` from a client
  and the configuration. The `DebateManager` modelled here takes a Groq
  client and uses its own fixed prompts. The configured opening and reply
  prompts are merged into the configuration, but no debate uses them.

## Model

| member | source | states |
|---|---|---|
| JavaStrings.StartsWith | src/main/java/com/bruhdows/debatebot/client/GroqClient.java:70 | `String.startsWith`: the prefix is no longer than the text and equals its first characters |
| JavaStrings.EndsWith | src/main/java/com/bruhdows/debatebot/client/impl/OllamaClient.java:26 | `String.endsWith`: the suffix is no longer than the text and equals its last characters |
| JavaStrings.ContainsIff | src/main/java/com/bruhdows/debatebot/debate/DebateManager.java:154-157 | `contains` answers true exactly when the phrase occurs at some position of the text |
| JavaStrings.ContainsInContext | src/main/java/com/bruhdows/debatebot/debate/DebateManager.java:154-157 | an occurrence stays an occurrence whatever text is put before and after it |
| JavaStrings.Contains | src/main/java/com/bruhdows/debatebot/debate/DebateManager.java:154-157 | `String.contains`: the text starts with the phrase, or its tail contains it |
| JavaStrings.ToLower | src/main/java/com/bruhdows/debatebot/debate/DebateManager.java:153 | `toLowerCase`, character by character, mapping `A`-`Z` to `a`-`z` |
| JavaStrings.ToLowerConcat | src/main/java/com/bruhdows/debatebot/debate/DebateManager.java:153 | lower-casing a concatenation lower-cases each part |
| JavaStrings.ToLowerOfUpper | src/main/java/com/bruhdows/debatebot/debate/DebateManager.java:153 | lower-casing an upper-cased text gives the lower-cased original |
| JavaStrings.TrimStartShape | src/main/java/com/bruhdows/debatebot/debate/DebateManager.java:143 | the leading half of `trim` removes only characters up to U+0020 and leaves a suffix that does not start with one |
| JavaStrings.TrimEndShape | src/main/java/com/bruhdows/debatebot/debate/DebateManager.java:143 | the trailing half of `trim` removes only characters up to U+0020 and leaves a prefix that does not end with one |
| JavaStrings.Trim | src/main/java/com/bruhdows/debatebot/debate/DebateManager.java:143 | `trim`: drop the leading, then the trailing characters up to U+0020; its properties are the two rows around this one |
| JavaStrings.TrimShape | src/main/java/com/bruhdows/debatebot/debate/DebateManager.java:143-144 | `trim` leaves a slice of the text that neither starts nor ends with a blank character, empty exactly when every character is blank |
| JavaStrings.TrimIdempotent | src/main/java/com/bruhdows/debatebot/debate/DebateManager.java:143 | trimming a trimmed text changes nothing |
| JavaStrings.Join | src/main/java/com/bruhdows/debatebot/debate/DebateSession.java:46-47 | `String.join`: the parts with one separator between each two, none at the ends |
| JavaStrings.JoinAppend | src/main/java/com/bruhdows/debatebot/debate/DebateSession.java:46-47 | joining two non-empty lists gives the two joined halves around one separator |
| JavaStrings.ReplaceAll | src/main/java/com/bruhdows/debatebot/client/impl/OllamaClient.java:25 | `String.replace`: scanning left to right, each occurrence of the target is replaced and scanning resumes after it, so occurrences never overlap |
| JavaStrings.ReplaceAllAbsent | src/main/java/com/bruhdows/debatebot/client/impl/OllamaClient.java:25 | `replace` leaves a text without the target unchanged |
| JavaStrings.ReplaceAllPrefix | src/main/java/com/bruhdows/debatebot/client/impl/OllamaClient.java:25 | a result of `replace` can begin with text foreign to the replacement only if the input began with it |
| JavaStrings.ReplaceAllLeavesNoTarget | src/main/java/com/bruhdows/debatebot/client/impl/OllamaClient.java:25 | when the replacement shares no character with the target, the target occurs at no position of the result |
| JavaStrings.ReplaceAllRemovesTarget | src/main/java/com/bruhdows/debatebot/client/impl/OllamaClient.java:25 | under the same condition, the result does not contain the target |
| GroqClient.FullPrompt | src/main/java/com/bruhdows/debatebot/client/GroqClient.java:34 | the prompt starts with the system prompt and ends with `\n\nUSER: ` and the user prompt, with nothing else in between |
| GroqClient.IsDone | src/main/java/com/bruhdows/debatebot/client/GroqClient.java:72-73 | the end marker is the exact line `data: [DONE]` |
| GroqClient.LineTokens | src/main/java/com/bruhdows/debatebot/client/GroqClient.java:70-96 | a `data: ` line forwards the parsed chunk's content when there is a first choice whose delta has non-empty content; any other line, and a payload that fails to parse, forwards nothing |
| GroqClient.Tokens | src/main/java/com/bruhdows/debatebot/client/GroqClient.java:69-98 | every token forwarded is non-empty |
| GroqClient.TokensAppend | src/main/java/com/bruhdows/debatebot/client/GroqClient.java:69-98 | before the end marker, lines are handled one by one: the tokens of two line sequences concatenate |
| GroqClient.TokensStopAtDone | src/main/java/com/bruhdows/debatebot/client/GroqClient.java:72-73 | nothing after the first `data: [DONE]` line is forwarded |
| GroqClient.SilentLineIgnored | src/main/java/com/bruhdows/debatebot/client/GroqClient.java:70-96 | a line that forwards nothing and is not the end marker can be removed anywhere before the marker without changing the tokens |
| GroqClient.NonDataLineSilent | src/main/java/com/bruhdows/debatebot/client/GroqClient.java:70 | a line without the `data: ` prefix forwards nothing and does not end the stream |
| GroqClient.TokensCons | src/main/java/com/bruhdows/debatebot/client/GroqClient.java:69-73 | reading one line: nothing at the end marker, otherwise that line's token followed by the tokens of the rest |
| GroqClient.ReadLines | src/main/java/com/bruhdows/debatebot/client/GroqClient.java:66-99 | the reading loop passes exactly the tokens of the body to `onToken`, in order |
| GroqClient.StreamResponse | src/main/java/com/bruhdows/debatebot/client/GroqClient.java:59-105 | a call forwards the body's tokens only on success; `onComplete` runs twice after a non-success status whose error body was read, and once otherwise |
| OllamaClient.NormalizeBaseUrl | src/main/java/com/bruhdows/debatebot/client/impl/OllamaClient.java:25-26 | the stored URL ends in `/`, contains no `localhost`, and is the replaced URL with a `/` added only when missing |
| OllamaClient.NormalizeIdempotent | src/main/java/com/bruhdows/debatebot/client/impl/OllamaClient.java:25-26 | normalising a normalised URL changes nothing |
| OllamaClient.NormalizeKeepsCleanUrl | src/main/java/com/bruhdows/debatebot/client/impl/OllamaClient.java:25-26 | a URL that has no `localhost` and ends in `/` is kept as it is |
| OllamaClient.RequestUrl | src/main/java/com/bruhdows/debatebot/client/impl/OllamaClient.java:42 | the request URL is the base URL directly followed by `api/generate`: it starts with one, ends with the other, and is exactly as long as both |
| OllamaClient.RequestUrlHasSlash | src/main/java/com/bruhdows/debatebot/client/impl/OllamaClient.java:26-42 | with a stored base URL, `api/generate` always follows a `/` |
| OllamaClient.FullPrompt | src/main/java/com/bruhdows/debatebot/client/impl/OllamaClient.java:85 | the prompt is the system prompt, a blank line, then the user prompt |
| OllamaClient.LineTokens | src/main/java/com/bruhdows/debatebot/client/impl/OllamaClient.java:57-67 | a parsed line forwards its `response` when present and non-empty; an unparseable line, or one whose `response` getter throws (JSON `null`, an object, or an array without exactly one element), forwards nothing; a number or boolean `response` forwards its text |
| OllamaClient.Stops | src/main/java/com/bruhdows/debatebot/client/impl/OllamaClient.java:60-68 | the loop stops after a parsed line whose `done` is `true`, unless reading `response` threw first |
| OllamaClient.Tokens | src/main/java/com/bruhdows/debatebot/client/impl/OllamaClient.java:57-71 | every token forwarded is non-empty |
| OllamaClient.TokensAppend | src/main/java/com/bruhdows/debatebot/client/impl/OllamaClient.java:57-72 | before a stopping line, the tokens of two line sequences concatenate |
| OllamaClient.StopLineLast | src/main/java/com/bruhdows/debatebot/client/impl/OllamaClient.java:60-68 | a line with `done: true` still forwards its own token, and nothing after it is forwarded |
| OllamaClient.UnparseableIgnored | src/main/java/com/bruhdows/debatebot/client/impl/OllamaClient.java:58-71 | a line that does not parse is skipped wherever it occurs, and the loop goes on |
| OllamaClient.TokensCons | src/main/java/com/bruhdows/debatebot/client/impl/OllamaClient.java:57-68 | reading one line: its token, then the rest unless the line stops the loop |
| OllamaClient.ReadLines | src/main/java/com/bruhdows/debatebot/client/impl/OllamaClient.java:54-73 | the reading loop passes exactly the tokens of the body to `onToken`, in order |
| OllamaClient.StreamResponse | src/main/java/com/bruhdows/debatebot/client/impl/OllamaClient.java:46-79 | a call forwards the body's tokens only on success; `onComplete` runs twice after a non-success status whose error body was read, and once otherwise |
| ConfigManager.CreateDefault | src/main/java/com/bruhdows/debatebot/config/ConfigManager.java:54-60 | `createDefault` gives the field initialisers of the configuration class: every field holds a value of its declared kind and none is `null` |
| ConfigManager.MergeFillsMissing | src/main/java/com/bruhdows/debatebot/config/ConfigManager.java:68-70 | a `null` or empty-string field takes the default's value |
| ConfigManager.MergeKeepsPresent | src/main/java/com/bruhdows/debatebot/config/ConfigManager.java:67-71 | any other field value is kept, including a number 0 |
| ConfigManager.MergeIdempotent | src/main/java/com/bruhdows/debatebot/config/ConfigManager.java:62-76 | merging twice with the same defaults gives the same result as merging once |
| ConfigManager.MergeWellTyped | src/main/java/com/bruhdows/debatebot/config/ConfigManager.java:62-76 | the merge keeps each field within its declared type |
| ConfigManager.Merged | src/main/java/com/bruhdows/debatebot/config/ConfigManager.java:62-76 | field by field: a `null` or empty-string field takes the default's value, any other value stays; its properties are the four rows above |
| ConfigManager.MergeMissingFields | src/main/java/com/bruhdows/debatebot/config/ConfigManager.java:62-76 | the in-place loop leaves the configuration equal to the field-by-field merge of its old contents |
| ConfigManager.Registered | src/main/java/com/bruhdows/debatebot/config/ConfigManager.java:37-52 | a loaded file merged with the defaults, or the defaults when there is no file; `ConfigManager.Register` states its properties |
| ConfigManager.Register | src/main/java/com/bruhdows/debatebot/config/ConfigManager.java:37-52 | the result has no `null` field and keeps the field types. Without a file it is the defaults; a loaded file with no missing field comes back unchanged |
| DebateBot.ValidTokenIff | src/main/java/com/bruhdows/debatebot/DebateBot.java:69-72 | a token is valid exactly when it starts with `MT` and is longer than 50 characters; the blank check never decides |
| DebateBot.NullTokenInvalid | src/main/java/com/bruhdows/debatebot/DebateBot.java:70 | a missing token is invalid |
| DebateBot.BlankTokenInvalid | src/main/java/com/bruhdows/debatebot/DebateBot.java:70 | a token that trims to nothing is invalid |
| DebateBot.StartupAfterRegister | src/main/java/com/bruhdows/debatebot/DebateBot.java:28-34 | after `register`, the bot stops exactly when the token lacks `MT` or is 50 characters or shorter, or when Groq is chosen with an empty key |
| DebateBot.OllamaWithoutKeyStarts | src/main/java/com/bruhdows/debatebot/DebateBot.java:30 | Ollama with a valid token and an empty key starts |
| DebateBot.GroqWithoutKeyAborts | src/main/java/com/bruhdows/debatebot/DebateBot.java:30 | Groq with an empty key stops, whatever the token |
| DebateBot.FirstRunAborts | src/main/java/com/bruhdows/debatebot/DebateBot.java:28-34 | on a first run without a file, the defaults are well typed and the bot stops, because their token is empty |
| DebateBot.IsValidToken | src/main/java/com/bruhdows/debatebot/DebateBot.java:69-72 | the four tests of `isValidToken` in order: not null, not blank after `trim`, starts with `MT`, longer than 50; `DebateBot.ValidTokenIff` states what they amount to |
| DebateBot.StartupAborts | src/main/java/com/bruhdows/debatebot/DebateBot.java:30 | the start-up test: an invalid token, or Groq with a `null` or empty key; the rows for `StartupAfterRegister` and the two key lemmas state its consequences |
| DebateSession.OneSpeakerPerEntry | src/main/java/com/bruhdows/debatebot/debate/DebateSession.java:34-43 | a tagged entry starts with exactly one of `USER: ` and `BOT: ` |
| DebateSession.HistorySpeakers | src/main/java/com/bruhdows/debatebot/debate/DebateSession.java:34-43 | in a well-formed session, the one every method keeps, each history entry has exactly one speaker |
| DebateSession.Window | src/main/java/com/bruhdows/debatebot/debate/DebateSession.java:46-47 | the window holds the newest `n` entries, or all of them when there are fewer |
| DebateSession.Context | src/main/java/com/bruhdows/debatebot/debate/DebateSession.java:45-48 | `getContext(n)` on a history: the window joined by newlines; its properties are the rows below |
| DebateSession.EmptyContext | src/main/java/com/bruhdows/debatebot/debate/DebateSession.java:45-48 | an empty history or a zero window gives the empty context |
| DebateSession.WholeHistoryContext | src/main/java/com/bruhdows/debatebot/debate/DebateSession.java:45-48 | a window at least as long as the history shows the whole history |
| DebateSession.ContextAfterAppend | src/main/java/com/bruhdows/debatebot/debate/DebateSession.java:45-48 | after an entry is added, the context is the newest `n - 1` older entries, a newline, then the new entry |
| DebateSession.ContextEndsWithNewest | src/main/java/com/bruhdows/debatebot/debate/DebateSession.java:45-48 | a non-empty context ends with the newest entry |
| DebateSession.Session.constructor | src/main/java/com/bruhdows/debatebot/debate/DebateSession.java:13-22 | a new session is unlocked, has an empty history, is the bot's turn, and has zero wins |
| DebateSession.Session.TryLock | src/main/java/com/bruhdows/debatebot/debate/DebateSession.java:24-28 | the lock is taken exactly when it was free, and the result says which; afterwards it is held |
| DebateSession.Session.Unlock | src/main/java/com/bruhdows/debatebot/debate/DebateSession.java:30-32 | the lock is free afterwards |
| DebateSession.Session.AddUserMessage | src/main/java/com/bruhdows/debatebot/debate/DebateSession.java:34-37 | appends `USER: ` and the message, stamps the activity time, and keeps every entry tagged |
| DebateSession.Session.AddBotMessage | src/main/java/com/bruhdows/debatebot/debate/DebateSession.java:39-43 | appends `BOT: ` and the message, stamps the activity time, ends the bot's turn, and keeps every entry tagged |
| DebateSession.Session.RecordBotWin | src/main/java/com/bruhdows/debatebot/debate/DebateManager.java:105 | the bot's win counter goes up by one |
| DebateSession.Session.GetContext | src/main/java/com/bruhdows/debatebot/debate/DebateSession.java:45-48 | the context is the newest `min(n, size)` entries, in order, joined by newlines: empty when there is nothing to show, otherwise ending with the newest entry, and the whole history joined when the window covers it |
| DebateManager.ContainsConcede | src/main/java/com/bruhdows/debatebot/debate/DebateManager.java:152-158 | the lower-cased message contains `concede`, `you win`, `gg` or `good game` anywhere; the four rows below state its properties |
| DebateManager.ConcedeInContext | src/main/java/com/bruhdows/debatebot/debate/DebateManager.java:152-158 | surrounding text never hides a concession |
| DebateManager.ConcedeIgnoresCase | src/main/java/com/bruhdows/debatebot/debate/DebateManager.java:153 | capital letters make no difference to concession |
| DebateManager.ConcedeInsideWord | src/main/java/com/bruhdows/debatebot/debate/DebateManager.java:156 | phrases match inside words: "I suggest you reconsider" concedes |
| DebateManager.ShortMessageNoConcession | src/main/java/com/bruhdows/debatebot/debate/DebateManager.java:152-158 | a message shorter than two characters never concedes |
| DebateManager.HoursBetween | src/main/java/com/bruhdows/debatebot/debate/DebateManager.java:164 | `HOURS.between` on millisecond instants: the whole hours in the gap, truncated toward zero, for a clock that goes forward or back |
| DebateManager.Expired | src/main/java/com/bruhdows/debatebot/debate/DebateManager.java:164 | the sweep's test: more than one whole hour between the last activity and now |
| DebateManager.ExpiredIff | src/main/java/com/bruhdows/debatebot/debate/DebateManager.java:164 | with whole hours truncated, "more than one hour" means at least two full hours idle; a clock that went back expires nothing |
| DebateManager.OpeningPrompt | src/main/java/com/bruhdows/debatebot/debate/DebateManager.java:57-62 | the opening system prompt: the text block with the topic filled in, ending in a newline |
| DebateManager.ReplyPrompt | src/main/java/com/bruhdows/debatebot/debate/DebateManager.java:121-128 | the reply system prompt: the text block with the topic and the recent debate filled in, ending in a newline |
| DebateManager.ProgressText | src/main/java/com/bruhdows/debatebot/debate/DebateManager.java:70-73 | a progress edit shows the trimmed reply so far, as `**AI: …**` in the opening and `AI: …` in a reply (line 138) |
| DebateManager.FinalText | src/main/java/com/bruhdows/debatebot/debate/DebateManager.java:77-85 | the last edit of a non-blank reply: the opening adds `**Your turn!**` after a blank line, a reply shows `AI: ` and the text (line 145) |
| DebateManager.ReplyUserPromptTaggedTwice | src/main/java/com/bruhdows/debatebot/debate/DebateManager.java:133 | the Groq prompt of a reply ends with `\n\nUSER: USER: ` and the human's message |
| DebateManager.SpacedSpan | src/main/java/com/bruhdows/debatebot/debate/DebateManager.java:70-75 | `n` throttled edits take at least `801 * n` ms after the turn started |
| DebateManager.Concat | src/main/java/com/bruhdows/debatebot/debate/DebateManager.java:134-135 | the `StringBuilder` after every token has been appended in order |
| DebateManager.ConcatAppend | src/main/java/com/bruhdows/debatebot/debate/DebateManager.java:134-135 | appending two runs of tokens appends their texts, so the buffer is the same however the tokens are split between calls |
| DebateManager.Turn.constructor | src/main/java/com/bruhdows/debatebot/debate/DebateManager.java:130-131 | a turn starts with an empty reply, no edits, and the throttle clock at the start time |
| DebateManager.Turn.OnToken | src/main/java/com/bruhdows/debatebot/debate/DebateManager.java:134-141 | appends the token. Only when more than 800 ms have passed since the last edit (or the start), it edits the message with the trimmed reply so far and restarts the clock. The 800 ms spacing is kept |
| DebateManager.Turn.OnComplete | src/main/java/com/bruhdows/debatebot/debate/DebateManager.java:142-149 | a non-blank trimmed reply becomes the final edit and one `BOT: ` history entry; a blank one changes nothing; the lock is released either way |
| DebateManager.Turn.Feed | src/main/java/com/bruhdows/debatebot/debate/DebateManager.java:134-141 | after every token the reply is their concatenation and the throttle still holds |
| DebateManager.Turn.Finish | src/main/java/com/bruhdows/debatebot/debate/DebateManager.java:142-149 | running the completion more than once, after a blank reply, adds nothing; the lock ends released |
| DebateManager.Turn.Stream | src/main/java/com/bruhdows/debatebot/debate/DebateManager.java:133-149 | a whole Groq call adds at most one bot entry, the trimmed concatenation of its tokens, and always releases the lock, even when completion runs twice |
| DebateManager.Manager.constructor | src/main/java/com/bruhdows/debatebot/debate/DebateManager.java:25-28 | the manager starts with no debates |
| DebateManager.Manager.StartDebate | src/main/java/com/bruhdows/debatebot/debate/DebateManager.java:30-52 | outside a text channel nothing changes. Otherwise a fresh session is filed under the new thread's id, replacing any entry: empty history, zero wins, the bot's turn, activity at `now`. Its opening turn starts holding the lock, with no edits and its throttle clock at `now` |
| DebateManager.Manager.GenerateFirstResponse | src/main/java/com/bruhdows/debatebot/debate/DebateManager.java:54-67 | a locked debate gets no opening; otherwise the lock is taken and an opening turn starts with the opening prompt and `Start the debate.`, no edits, and its throttle clock at `now` |
| DebateManager.Manager.HandleMessage | src/main/java/com/bruhdows/debatebot/debate/DebateManager.java:88-133 | a message from a bot or outside a thread changes nothing; the human's win counter never changes; the full case split is in the list below the table |
| DebateManager.Manager.CleanupOldSessions | src/main/java/com/bruhdows/debatebot/debate/DebateManager.java:160-166 | a debate is dropped exactly when more than one whole hour, truncated, has passed since its last activity (so at least two hours idle); the others stay as they were |

`DebateManager.Manager.HandleMessage`, case by case:

- A message from a bot, or one outside a thread, is ignored and leaves every debate as it was.
- A thread with no debate, or a locked debate, answers "still thinking" and changes nothing.
- Otherwise the lock is taken and the message is appended as a `USER: ` entry.
- If the bot may not send into the thread, the lock is released and no win is counted, even for a concession.
- If the message concedes, the bot wins and the lock is released.
- Otherwise a reply turn starts holding the lock, with no edits and its throttle clock at `now`. Its prompt is built from the newest 8 entries, and its user prompt is the tagged message.

## Left out

- **Discord I/O.** The model does not send messages, show typing, create
  threads or queue edits. A message's effect is the `Outcome` of
  `handleMessage`, plus the edit texts recorded by `Turn`.
  `currentReplyMessage` is the `Turn` that edits it. The text-channel-only
  answer of `startDebate` is the null turn.
- **Thread creation.** Creating a thread is asynchronous. The new thread's
  id is a parameter, and the opening turn starts as soon as the session is
  filed. A thread creation that fails files no session in the source,
  because `queue` is given no failure callback; `StartDebate` always
  succeeds, so that failure is not modelled.
- **HTTP and JSON.** Building requests is not modelled (model name, headers,
  `max_tokens`, temperature). Neither is JSON parsing. A Groq payload
  arrives through a `parse` function into `Chunk`, and an Ollama line
  arrives already decoded as `Line`. A connection error, an exception while
  building the request, and a read error part-way all count as the end of
  the body.
- **Concurrency.** The model does not cover `synchronized`,
  `CompletableFuture.runAsync`, `ConcurrentHashMap`, or the scheduler that
  runs the sweep every 5 minutes. Each handler and callback is one
  sequential call. `Turn.Stream` first collects the client's tokens and
  then delivers them; the order is the same. Interleavings of two threads
  are not modelled.
- **Clock.** `Instant.now()` and `System.currentTimeMillis()` are
  millisecond parameters. `Instant`'s nanoseconds are not modelled.
- **Loading and saving.** `loadConfig`, `saveConfig` and reflection over
  the `Config` class are not modelled. The loaded file is an `Option` of
  the nine field values, and `createDefault` is the function
  `CreateDefault`. A malformed `config.json` makes the JSON parser throw an
  exception that the loader does not catch, so `register` throws and the
  bot exits; the model has no such path.
- **Start-up after line 34.** `ClientFactory`, `LanguageModelClient`,
  `DebateListener` and the start-up code after the check (JDA build and
  slash-command registration) are not part of this model.
- **Other exceptions.** `HandleMessage` has one failure parameter,
  `canSend`: whether the bot may send into the thread. Without that
  permission the first send of the `try` block throws, whether it is the
  concession announcement or the typing indicator before "AI thinking...".
  Failures that happen later, inside JDA's queue, never reach the handler.
  Other exceptions in the `try` block are not modelled.
- DebateManager.ContainsConcede: `toLowerCase` uses the default locale.
  The model assumes one whose mapping of `A`-`Z` is the ASCII one, and
  maps no other letter. Under a Turkish default locale `I` becomes a
  dotless `ı`, so "YOU WIN" would not concede, and `ConcedeIgnoresCase`
  does not hold there.
- JavaStrings.TrimShape: strings are sequences of characters; UTF-16
  surrogate pairs are not modelled, so `length()` and `trim` count
  characters.
- DebateSession.Session.RecordBotWin: the counters are unbounded; 32-bit
  `int` wrap-around is not modelled.
- DebateSession.Session.GetContext: takes a `nat`. A negative window makes
  `subList` throw in the source; the only caller passes 8.
- DebateManager.Turn.Finish: requires that a second completion comes only
  after a call that yielded no text. The Groq client guarantees this, and
  `Turn.Stream` proves it from `GroqClient.StreamResponse`.
