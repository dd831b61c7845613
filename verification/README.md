# ChatBuddy update loop and poll lifecycle, modelled in Dafny

ChatBuddy is a Telegram bot written in Go. It long-polls Telegram for updates,
answers messages that mention it by asking Gemini, lets chats opt in to an
hourly English vocabulary quiz, and reveals each quiz's answer the first time
someone answers the poll. This project models the engine in `main.go` that does
this, as a sequential state machine:

- the two in-memory stores of `BotService`: `activeChannels` (chat ID to bool,
  used as the set of opted-in chats) and `activePolls` (poll ID to `PollData`);
- the variables of the polling loop in `Run`: `currentDelay` and the update
  offset;
- one iteration of `Run`: conflict backoff, offset advance, routing of every
  update of a batch;
- `handleCommand`, the poll-answer reveal, `handleQuery`, `isBotMentioned`,
  `sendHourlyPoll`'s fan-out and `sendChunks`;
- the capped base delay of the startup retry in `NewBotService`.

Telegram and Gemini are inputs. A fetch is a `FetchOutcome`: an error text or a
batch of updates. A poll send is a function from chat ID to `SendResult`:
failure, or a message ID with an optional poll ID. Gemini's chat reply is a
function `respond` from the cleaned text to the reply text. The decoded quiz
JSON is an `Option<Quiz>`, where `None` means generation or decoding failed.
Go strings are byte sequences (`Text.GoString`), because `len`, slicing,
`strings.Contains` and `strings.ReplaceAll` work on bytes. Durations are in
milliseconds. The Go runtime panic of the reveal (index out of range) is the
`crashed` outcome: the stores are left as they were, and `Run` stops. The
other panics on the update path are not modelled (see "## Left out").

Modules, leaves first:

- `Wrappers`: `Option`.
- `Text`: byte strings, `strings.Contains`, ASCII lower-casing,
  `strings.ReplaceAll(s, pat, "")`, and `%d` with its read-back.
- `Telegram`: the update, message, poll-answer, outbound-message and
  send-result types.
- `Backoff`: `currentDelay` arithmetic, the pauses, and the startup retry delay.
- `Chunks`: `sendChunks` and the pieces it cuts.
- `Channels`: the effect of the commands on `activeChannels`.
- `Polls`: `PollData`, `Quiz`, the reveal text, the poll-answer outcome, and
  the registry after a fan-out.
- `Routing`: `isBotMentioned`, the routing decision of `Run`, and `handleQuery`'s
  replies.
- `Bot`: the class `BotService`, whose methods update the two maps in place; the
  batch loop; one iteration of `Run`; `Run` over a finite run of fetches; and
  `sendHourlyPoll`. Each method is proved against the pure functions above.

Points of the code's behaviour that a reader might not expect, all kept as
the code has them:

- Every chunk of a long reply carries the reply-to ID, not just the first
  (main.go:352).
- After a batch, the offset is the last update's ID + 1 in arrival order, not
  one past the highest ID (main.go:180). `Bot.OffsetIsLastNotHighest` shows a
  batch where the two differ.
- Nothing in the code validates the decoded quiz: its question and choices
  are sent, and its choices and answer index are stored, as they come
  (main.go:307-337). See "## Findings".
- There is no lock around the two maps, which `Run` and the cron callback both
  use. The model runs the operations one after another on one object.
- A channel post that is not a command is dropped, even when it mentions the
  bot (main.go:199-204).
- Poll entries that nobody answers stay in the registry forever.

## Model

| member | source | states |
|---|---|---|
| Text.Contains | main.go:146 | `strings.Contains`: true exactly when the pattern occurs at some byte position (the empty pattern occurs everywhere) |
| Text.Lower | main.go:257 | lower-casing keeps the length, leaves no capital letter, and changes a byte only when it is an ASCII capital, into the matching small letter |
| Text.LowerKeepsOccurrence | main.go:257 | an occurrence of the user name in the text is still an occurrence after both are lowered |
| Text.RemoveAll | main.go:248 | `strings.ReplaceAll(text, userName, "")` never lengthens the text, leaves it unchanged when the name does not occur (or is empty), and shortens it when the name occurs |
| Text.RemoveLeftmost | main.go:248 | at the leftmost occurrence of a non-empty name, the bytes before it are kept, the occurrence is dropped, and removal goes on from right after it; with the unchanged case of `RemoveAll` this fixes every byte of the result |
| Text.Decimal | main.go:185-187 | `%d` of a non-negative number is a non-empty run of decimal digits with no leading zero |
| Text.DecimalValue | main.go:185-187 | reading the digits printed by `%d` back gives the number |
| Text.DigitRun | main.go:185-187 | the length of the leading digit run: all digits, and followed by a non-digit or by the end |
| Text.DigitRunOfDecimal | main.go:185-187 | a printed number followed by a non-digit is read back whole |
| Backoff.NextDelay | main.go:144-175 | the new `currentDelay` stays in [5s, 60s]; a conflict raises it strictly below the ceiling (doubling, capped at 60s); success resets it to 5s; any other error keeps it |
| Backoff.IsConflict | main.go:146 | a fetch counts as a conflict exactly when it failed and its error text contains "Conflict" at some byte position |
| Backoff.PauseFor | main.go:160-218 | every sleep of an iteration lies between 100ms and 60s while the delay does; a conflict below the 60s ceiling sleeps less than the delay the next conflict will sleep, and at the ceiling both are 60s; another error sleeps 3s, a batch 100ms |
| Backoff.ConflictPauses | main.go:146-165 | the k-th conflict in a row from the start sleeps the delay in force before it is doubled, min(5s * 2^(k-1), 60s) |
| Backoff.DelayAfterBounded | main.go:135-175 | whatever the fetches return, the delay never leaves [5s, 60s] |
| Backoff.ResetAfterSuccess | main.go:174-175 | one successful fetch brings the delay back to 5s, whatever came before |
| Backoff.ConflictStreak | main.go:159-164 | after k consecutive conflicts from the start, the delay is min(5s·2^k, 60s) |
| Backoff.ConflictStreakShape | main.go:159-164 | the conflict delay rises strictly for the first four conflicts (5, 10, 20, 40s) and then stays at 60s |
| Backoff.RetryBaseDelay | main.go:96-100 | the startup retry's base delay, 1s·2^attempt capped at 30s, lies in [1s, 30s] |
| Backoff.RetryCapUnreached | main.go:88-105 | a retry sleep follows only attempts 0 to 3 of 5, and for those the 30s cap never applies (at most 8s) |
| Backoff.RetryBaseDelayMonotone | main.go:96-100 | a later attempt never has a shorter base delay |
| Chunks.Pieces | main.go:343-354 | the pieces of a reply are each non-empty and at most 4096 bytes, all but the last exactly 4096, their count is ceil(len/4096) (so empty text gives none), and they concatenate in order to the text |
| Chunks.PieceAt | main.go:346-351 | piece k is the byte range [4096k, min(4096(k+1), len)) of the text |
| Chunks.SendChunks | main.go:343-354 | `sendChunks` sends one message per piece, in order, all to the same chat, every one carrying the original reply-to ID |
| Chunks.NineThousandBytes | main.go:343-354 | a 9000-byte reply goes out as three messages of 4096, 4096 and 808 bytes |
| Channels.ApplyCommand | main.go:233-239 | "activate" maps the chat to true, "deactivate" deletes it, other commands change nothing, no other chat is touched, and a set with no false value keeps having none |
| Channels.EnabledIsKeys | main.go:45 | when no chat maps to false, the enabled chats are exactly the keys, which is what the hourly tick iterates |
| Channels.ActivateThenDeactivate | main.go:233-239 | opting in and then out leaves the set as if the chat had never been in it |
| Channels.CommandsIdempotent | main.go:233-239 | a repeated activate or deactivate from the same chat changes nothing more |
| Channels.NoticeFor | main.go:224-243 | each of "start", "help", "activate" and "deactivate" has its own reply, every other command gets the unknown-command reply, and a reply other than the two opt-in ones goes with a channel set that is left alone |
| Polls.RevealText | main.go:185-189 | the `Sprintf` reveal text can be read back into exactly the option number and the option text it was built from |
| Polls.AnswerPoll | main.go:183-196 | an unknown poll ID does nothing; a known one with a usable index sends one reveal to the stored chat, replying to the stored message, naming option CorrectOption+1 and Options[CorrectOption], and removes exactly that ID with every other entry unchanged; an unusable index is the panic case |
| Polls.AnswerOnce | main.go:184-193 | after a reveal, a second answer to the same poll finds nothing |
| Polls.Register | main.go:326-337 | one send registers nothing unless it succeeded with a poll; then exactly its poll ID is added or overwritten with (chat, message ID, AnswerIndex, Choices), and every other entry is kept |
| Polls.RegisterAll | main.go:318-339 | a fan-out never removes an entry, and one in which no send issued a poll leaves the registry as it was |
| Polls.RegisterAllKeys | main.go:318-339 | the fan-out adds exactly the poll IDs of the successful sends that carried a poll; a failed send adds no key |
| Polls.RegisterAllEntry | main.go:331-337 | the entry under a poll ID holds (chat ID, sent message ID, AnswerIndex, Choices) of the last send that issued that ID |
| Polls.RegisterAllUntouched | main.go:318-339 | an old entry whose ID no send issued keeps its value |
| Polls.TwoDestinations | main.go:318-339 | two chats whose sends succeed with distinct poll IDs give two entries, one per chat, with the same answer index and choices |
| Polls.UnvalidatedIndexPanics | main.go:307-316 | a quiz with an answer index outside its choices, once sent, makes the next answer to that poll hit the index panic |
| Polls.RegisterAllKeepsWellFormed | main.go:331-337 | a fan-out of a quiz whose index fits its choices keeps every stored index usable |
| Polls.RegisterValidated | main.go:307-316 | the corrected fan-out: an invalid quiz (empty question, not four choices, index outside [0, 3]) registers nothing, so every stored index stays usable |
| Polls.WellFormedNeverPanics | main.go:188 | when every stored index is usable, a poll answer never panics |
| Routing.IsBotMentioned | main.go:255-259 | `isBotMentioned` is true exactly when the lowered user name occurs in the lowered text |
| Routing.MentionVerbatim | main.go:255-259 | a verbatim occurrence of the user name is a mention |
| Routing.MentionIgnoresCase | main.go:257 | lowering the text or the user name first does not change the mention check |
| Routing.RouteOf | main.go:182-214 | routing is exclusive and in this order: a poll answer goes only to the poll-answer branch; otherwise a channel post goes to `handleCommand` if it is a command and is dropped if not; otherwise a message goes to `handleCommand` if it is a command, and to `handleQuery` exactly when it mentions the bot or replies to one of the bot's messages; anything else is ignored |
| Routing.QueryReplies | main.go:246-253 | `handleQuery`'s messages are all text replies to the user's message in the asking chat, each non-empty and at most 4096 bytes, all but the last exactly 4096, and together exactly the model's answer to the text with the user name cut out |
| Bot.DispatchUpdate | main.go:182-214 | one update: of the panics modelled, only the reveal's index panic crashes, and then nothing changes; only a poll answer touches the poll registry, and only by deleting: every entry left keeps its old value; only a command touches the channel set, which keeps having no false value |
| Bot.QuietBatch | main.go:178-215 | a batch without a poll answer neither panics nor changes the poll registry |
| Bot.DispatchBatchKeeps | main.go:177-215 | over a whole batch the channel set keeps having no false value, and the poll registry only loses entries, each one left keeping its old value, so `Run` never registers or rewrites a poll |
| Bot.CrashIsFinal | main.go:178-215 | once an update panics, no later update of the batch is handled |
| Bot.RepeatedAnswerInBatch | main.go:183-196 | two answers to the same registered poll in one batch give one reveal, remove the entry once, and the second answer is a no-op |
| Bot.LastOffset | main.go:178-180 | an empty batch leaves the offset alone; when the update IDs rise in arrival order, as Telegram issues them, the new offset is past every update of the batch, so none is fetched again |
| Bot.NextOffset | main.go:142-180 | a fetch error never moves the offset; a batch moves it as `LastOffset` says |
| Bot.OffsetIsLastNotHighest | main.go:180 | for a batch with IDs 5 then 3 the offset becomes 4, which does not confirm update 5 |
| Bot.BotService.constructor | main.go:111-117 | both stores start empty |
| Bot.BotService.HandleCommand | main.go:222-244 | the channel set becomes `ApplyCommand` of the old one, the poll registry is not touched, and one fixed reply goes to the chat |
| Bot.BotService.HandlePollAnswer | main.go:183-196 | the registry and the messages sent are those `AnswerPoll` gives: nothing for an unknown ID, one reveal and one deletion for a known ID, the panic case with nothing changed for an unusable index |
| Bot.BotService.HandleQuery | main.go:246-253 | sends exactly `QueryReplies`, in place of the user-name removal, the Gemini call and `sendChunks` |
| Bot.BotService.Dispatch | main.go:182-214 | the nil-check routing of one update, done in place, leaves the stores, the messages and the panic flag exactly as `DispatchUpdate` says |
| Bot.BotService.ProcessBatch | main.go:177-215 | the batch is handled in arrival order as `DispatchBatch` says, and without a panic the offset ends at the last update's ID + 1, or unchanged for an empty batch |
| Bot.BotService.Iterate | main.go:140-219 | one iteration: on a fetch error the offset, the stores and the messages are unchanged, a conflict (error text containing "Conflict") clears the webhook and sleeps the current delay, another error sleeps 3s; the delay moves as `NextDelay` says; a batch is dispatched and then 100ms are slept |
| Bot.BotService.Run | main.go:128-219 | over a run of fetches starting at offset 0, every fetch asks for the offset the previous outcome left (unchanged after an error), every sleep is at most 60s, and the poll registry never gains a key |
| Bot.BotService.SendHourlyPoll | main.go:288-339 | with no active chat or no decoded quiz, no send and no registry change; otherwise one poll send per active chat, in map order, with the registry afterwards as `RegisterAll` says, so failed sends add nothing and do not stop the loop |

## Left out

- The Telegram calls `GetUpdates`, `Send` and `Request(DeleteWebhookConfig)`, and the Gemini calls: they are network I/O through libraries not part of this model. Fetches are the `outcomes` input and poll sends the `send` function. The results of text sends and of the webhook clearing are ignored by the source and are not modelled; `Iterate` only says that the clearing happens.
- `time.Sleep` and the cron schedule: these are timers. Only the length of each sleep is modelled. `SendHourlyPoll` is an operation that can run between two iterations.
- The jitter of the startup retry (main.go:101): it uses `rand.Float64` and floating point. Only the capped base delay is modelled.
- The startup retry loop itself: it calls `tgbotapi.NewBotAPI`, whose result is network I/O, and panics after five failures.
- Decoding the quiz JSON and the Gemini call behind it (main.go:293-316): the decoded quiz is an input. The panics at main.go:312 (no candidate, a nil `Content`, no part, or a part that is not text) are not modelled; `quiz = None` stands only for the error returns at main.go:302-305 and 313-315.
- `generateResponse` (main.go:262-285): it is the `respond` function, including its fixed fallback replies. Prompt strings, help, greeting and command-reply texts are `NoticeKind` values, not their wording.
- `IsCommand` and `Command` of the Telegram library: a message's `command` is `Some(name)` exactly when it is a command.
- `ReplyToMessage.From` is taken to be present. Telegram sets it in every non-channel chat, and main.go:211 only reads it for messages.
- `strings.ToLower` is modelled on ASCII letters only. Unicode case folding is not modelled.
- Concurrency between the cron callback and `Run`: there are no threads in the model, only operations on one object run one after another.
- The panic at main.go:281 in `generateResponse` (`Candidates[0].Content.Parts[0]` with a nil `Content` or empty `Parts`), which also stops `Run`: `respond` is taken to be total, so `crashed` covers only the reveal's index panic.
- Gemini's non-determinism: one `respond` function serves a whole run, so the model gives the same text the same reply every time.
- Bot.BotService.Run: does not state the messages sent or the final stores batch by batch; `Iterate` states them for each iteration. The source's loop never ends, and the model runs a finite prefix of it.
- config.go is not part of this model: it reads environment variables and a `.env` file.

## Findings

| source | as written | input that shows it | evidently intended | confidence | as-written member | corrected member |
|---|---|---|---|---|---|---|
| main.go:307-316 | the decoded `AnswerIndex` and `Choices` are stored with no bounds check, and the reveal at main.go:188 indexes `Options[CorrectOption]` | Gemini returns `{"question":"Q","choices":["a","b","c","d"],"answer_index":4}`, one active chat, the send succeeds; the first answer to that poll panics with an index out of range and stops `Run` | a quiz without a question, without exactly four choices, or with an index outside [0, 3] abandons the tick, as the prompt's format demands, so every stored index is usable | not executed; high | Polls.UnvalidatedIndexPanics | Polls.RegisterValidated |

`BotService.SendHourlyPoll` keeps the behaviour as written, because that is what
the program does. `Polls.RegisterValidated` with `Polls.WellFormedNeverPanics`
shows that the check it lacks rules out the panic.
