# Nutri.ia in Dafny

A model of the core of Nutri.ia, a WhatsApp nutrition assistant. The model covers:

- how an incoming WhatsApp message is routed: status updates, the pending meal confirmation, the `resumo` command, text, images and audio;
- the per-phone pending "meal registration" that an image analysis opens and a later "sim" or "não" closes;
- the text extractors applied to an image analysis (calories and food name) and the context block sent with every chat request;
- the keyword and regular-expression profile extractor, and the daily summary;
- the SQLite store, as four in-memory relations (users, meals, conversation history, reminder settings);
- the reminder rules: which stored reminders fire at a given "HH:MM", the message each one gets, the four default broadcasts with their cron expressions, and the job map of custom reminders.

Modules, in dependency order:

| file | module | models |
|---|---|---|
| `wrappers.dfy` | `Wrappers` | `Option` and `Result` |
| `text.dfy` | `Text` | `toLowerCase`, `trim`, `includes`, `startsWith`, `split`, `replace` with a string pattern, `parseInt` of digits, decimal rendering |
| `clock.dfy` | `Clock` | one reading of `Date.now()` / `new Date()` per handler call |
| `patterns.dfy` | `Patterns` | every regular expression of the core, hand-coded, with leftmost-match search |
| `database_service.dfy` | `DatabaseService` | `src/services/database.service.js` |
| `openai_service.dfy` | `OpenAiService` | the pure functions of `src/services/openai.service.js` |
| `conversation_manager.dfy` | `ConversationManager` | `src/managers/conversation.manager.js` |
| `reminder_scheduler.dfy` | `ReminderScheduler` | `src/reminders/reminder.scheduler.js` |
| `whatsapp_client.dfy` | `WhatsAppClient` | the routing and addressing of `src/whatsapp/client.js` |

Conventions:

- Every handler is a pure function. It takes the session state and returns the new state with the reply. The session state is the pending map plus the store.
- The wall clock arrives as a `Clock.Now` record. `ms` stands for `Date.now()`. `hour` and `localTime` are local time. `isoDate` is the UTC date that `toISOString` gives.
- The inference client's network calls are parameters:
  - `chat` is a function from the request to an optional answer;
  - image analysis and transcription are optional strings;
  - `None` stands for a call that threw.
- The expression validator of `cron.schedule` is the parameter `accepts`.
- Regular expressions with the `i` flag compare the lower-cased text with lower-case literals. The greedy reading at each start position gives the regex result, as the comment in `patterns.dfy` argues for each pattern.

Two behaviours of the code are easy to misread; the model follows the code in both:

- `handleMessage` trims the user's history to 50 turns after its two appends. `handleImageMessage` also appends two turns but never trims, so `ConversationManager.HandleImage` does not trim either.
- `extractAndUpdateUserInfo` is not awaited, and its `try` guards only the call to `updateUserProfile`. A height matched only by the capture-less alternative `1[.,]?\d{2}` throws before that call. `ConversationManager.HeightField` returns that error as a `Failure`, and `ConversationManager.ApplyExtraction` then leaves the store unchanged. `ApplyExtraction` is the corrected update, with `datetime('now')` in single quotes; the update as written is `ConversationManager.ApplyExtractionAsWritten`, which never stores a field when SQLite reads double-quoted strings as identifiers (see Findings). The reply is unaffected. The rejection reaches the `unhandledRejection` handler of `index.js` (lines 45-47), which only logs it, so the process keeps running.

## Model

| member | source | states |
|---|---|---|
| Text.Split | src/services/openai.service.js:148 | `split` on one character gives at least one piece, no piece contains the separator, and joining the pieces with it gives the text back |
| Clock.HourMinute | src/reminders/reminder.scheduler.js:65 | `substring(0, 5)`: a prefix of the time, five characters long or the whole of a shorter time |
| Patterns.FirstMatch | src/services/openai.service.js:134 | `match` without `g`: null exactly when no start position matches; otherwise the capture of the leftmost matching position, of the pattern's shape |
| Patterns.FirstOf | src/managers/conversation.manager.js:159-162 | a `\|\|` chain of matches: the first alternative that matches anywhere, no earlier alternative matching, with its leftmost capture; none exactly when no alternative matches |
| Patterns.ThreeDigitsCmUnreachable | src/managers/conversation.manager.js:159-161 | wherever `(\d{3})\s*cm` matches, `(\d+(?:[.,]\d+)?)\s*cm` matches too, so the third height alternative never decides |
| DatabaseService.GetUserProfile | src/services/database.service.js:105-107 | the user with the phone number, never creating one; none exactly when no row has that phone |
| DatabaseService.GetOrCreateUser | src/services/database.service.js:68-84 | an existing user is returned with the store unchanged; otherwise one user with the column defaults is appended; the result has the phone and is in the table; the schema constraints are kept |
| DatabaseService.GetOrCreateIdempotent | src/services/database.service.js:68-84 | a second call for the same phone returns the same user and changes nothing |
| DatabaseService.UpdateUserProfile | src/services/database.service.js:86-103 | the row with the id gets exactly the given fields and the new `updated_at`, every other row and table is unchanged, the result is the row read back (none when the id is unknown), and validity is kept |
| DatabaseService.UpdateUserProfileAsWritten | src/services/database.service.js:95-99 | the statement as written: it succeeds exactly when the SQLite build reads double-quoted strings as literals, and then acts as `UpdateUserProfile`; otherwise preparing it fails with "no such column: now" |
| DatabaseService.AddMeal | src/services/database.service.js:109-126 | one row appended with the given type, food and calories, date and time falling back to the clock when absent or empty, and `image_analyzed` 1 exactly when the flag is set |
| DatabaseService.GetTodayMeals | src/services/database.service.js:128-136 | exactly the user's meals dated today, with multiplicity, in ascending `meal_time` |
| DatabaseService.AddMealThenRead | src/services/database.service.js:109-136 | a meal written without a date is read back among today's meals with the same food, calories and type |
| DatabaseService.NoMealsToday | src/services/database.service.js:128-136 | today's list is empty exactly when no meal row of the user carries today's date |
| DatabaseService.SumOfPermutation | src/managers/conversation.manager.js:271 | the sum of calories is the same for any two lists holding the same meals, so sorting by time does not change the total |
| DatabaseService.ReduceIsSum | src/managers/conversation.manager.js:271 | the `reduce` left fold over the meals computes the recursive sum of calories |
| DatabaseService.AddTurn | src/services/database.service.js:146-155 | appends one turn: that user's turns gain it at the end, other users' turns are unchanged |
| DatabaseService.RecentTurnsDesc | src/services/database.service.js:157-163 | `ORDER BY created_at DESC LIMIT n`: reversed, the last `n` turns of the user |
| DatabaseService.GetConversationHistory | src/services/database.service.js:157-164 | the `limit` most recent turns of the user (all when fewer), oldest first, as a suffix of that user's turns |
| DatabaseService.DropOldestEffect | src/services/database.service.js:173-178 | deleting the user's `n` oldest turns leaves that user's turns from the `n`-th on and every other user's turns unchanged |
| DatabaseService.ClearOldConversationHistory | src/services/database.service.js:166-179 | exactly the `keepLast` most recent turns of the user remain, in order; other users' turns and other tables are unchanged; nothing changes at or below the limit |
| DatabaseService.SetReminderSettings | src/services/database.service.js:181-195 | upsert on (user, meal type): afterwards an enabled row with the new time exists, rows of other pairs are unchanged, at most one row is added, and key uniqueness is kept |
| DatabaseService.UpsertLeavesOneRow | src/services/database.service.js:56 | after the upsert a valid store holds exactly one row for the pair |
| DatabaseService.ActiveIndices | src/services/database.service.js:204-211 | the positions of the reminder rows the join keeps: increasing, each an enabled row whose user exists, and every such row listed |
| DatabaseService.JoinOne | src/services/database.service.js:208 | with unique user ids, the join gives one joined row when the user exists and none otherwise |
| DatabaseService.ActiveRowsPerRow | src/services/database.service.js:204-211 | with unique user ids, the k-th joined row is the k-th kept reminder row joined with its user, and there is one joined row per kept row |
| DatabaseService.GetAllActiveReminders | src/services/database.service.js:204-211 | exactly the enabled rows whose user exists, each joined with that user's phone number and name; in a valid store one joined row per such reminder row, in reminder table order |
| OpenAiService.CaloriesFromText | src/services/openai.service.js:133-145 | a number is found exactly when a `kcal`/`calorias` figure or a range matches; the leftmost figure with a unit decides; failing that, the second number of the leftmost range |
| OpenAiService.UnitBeatsRange | src/services/openai.service.js:134-137 | a figure with a unit wins, wherever a range sits |
| OpenAiService.BeforeDash | src/services/openai.service.js:151 | the group of `^([^-]+)`: the longest dash-free prefix, stopping at the first dash |
| OpenAiService.FirstAccepted | src/services/openai.service.js:149-156 | the loop with its early return: the first accepted line at or after the start, none accepted before it; none exactly when no line is accepted |
| OpenAiService.FoodNameIn | src/services/openai.service.js:149-157 | the trimmed text before the first dash of the first qualifying line; "Alimento não identificado" when no line qualifies |
| OpenAiService.FoodNameFromText | src/services/openai.service.js:147-158 | the same, for the lines of the analysis split on newlines |
| OpenAiService.BuildContextPrompt | src/services/openai.service.js:93-131 | the string concatenation builds the same text as the header, then `Present` of the profile table (the truthy profile lines in the fixed order), then `MealsSection` of the meals |
| OpenAiService.PresentLines | src/services/openai.service.js:96-118 | the six guarded appends: exactly the present lines, in table order |
| OpenAiService.MealsBlock | src/services/openai.service.js:120-128 | nothing without meals; otherwise the heading, one line per meal in order and the summed total |
| OpenAiService.MealLinesLoop | src/services/openai.service.js:122-124 | the `forEach` builds the same text as the recursive one-line-per-meal definition |
| OpenAiService.SumLoop | src/services/openai.service.js:126 | the `reduce` loop computes the same total as the recursive sum of calories |
| OpenAiService.BareContext | src/services/openai.service.js:93-131 | with no truthy field and no meals the block is the bare header |
| ConversationManager.DetermineMealType | src/managers/conversation.manager.js:134-146 | breakfast exactly for hours [5,11), lunch for [11,15), snack for [15,19), dinner otherwise |
| ConversationManager.CheckPending | src/managers/conversation.manager.js:95-132 | no entry: null, nothing changes; expired: entry dropped, null; confirming text: one meal recorded, entry dropped, confirmation naming food and slot; declining text without confirming token: entry dropped, decline reply; any other text: nothing changes |
| ConversationManager.CheckPendingIsLocal | src/managers/conversation.manager.js:95-132 | no entry is ever added and the entries of other phones are untouched |
| ConversationManager.NaoQueroConfirms | src/managers/conversation.manager.js:110-125 | "Não quero" holds both a confirming and a declining token; the confirming ones are checked first |
| ConversationManager.StillLiveAtTtl | src/managers/conversation.manager.js:102-124 | the TTL comparison is strict: at exactly 300000 ms a confirmation still records the meal |
| ConversationManager.Offer | src/managers/conversation.manager.js:71-88 | truthy calories replace the phone's entry with a fresh one carrying food, calories and the time, keep other entries, and append the follow-up naming both; otherwise map and analysis are returned unchanged |
| ConversationManager.HandleImage | src/managers/conversation.manager.js:54-93 | the user is created first; a failed analysis gives the apology and stores nothing else; a successful one appends the caption turn and the analysis turn, changes nothing else in the store, and makes the offer |
| ConversationManager.ImageThenConfirm | src/managers/conversation.manager.js:74-122 | an analysis with calories confirmed within the TTL records exactly one meal with the analysed food and calories, flagged as analysed, and clears the entry |
| ConversationManager.Messages | src/managers/conversation.manager.js:29-32 | one chat message per history turn, same role and content, same order |
| ConversationManager.RequestFor | src/managers/conversation.manager.js:15-37 | at most 16 messages, the last being the user's text, with the user row and today's meals as context |
| ConversationManager.TextSentTwice | src/managers/conversation.manager.js:13-37 | the text is stored before the history is read, so the last two messages sent are both the user's text |
| ConversationManager.Converse | src/managers/conversation.manager.js:13-47 | on a failed chat the user turn stays and the apology is returned; on success the reply is the answer, the user's turns become the last 50 of the old ones plus the two new turns, the newest being the answer, the users table is the one the corrected profile extraction (`ApplyExtraction`) of the said text gives, and other users' turns, meals and reminders are unchanged |
| ConversationManager.StoreAnswer | src/managers/conversation.manager.js:39-47 | after an answer: the user's turns are the last 50 of the old ones plus the two new turns, ending with the answer; the users table is the corrected extraction's (`ApplyExtraction`); nothing else changes |
| ConversationManager.ExtractionReadsOnlyUsers | src/managers/conversation.manager.js:192-198 | the profile extraction's effect on the users table depends only on the users table |
| ConversationManager.ConverseReply | src/managers/conversation.manager.js:39-51 | the reply is the apology or the answer, and in the second case it is the newest turn stored for the user |
| ConversationManager.HandleMessage | src/managers/conversation.manager.js:9-52 | the pending map and the meals are unchanged; after getting or creating the user, the store and reply are those of the shared conversation step with the text both stored and sent and the generic apology |
| ConversationManager.HandleAudio | src/managers/conversation.manager.js:201-247 | a failed transcription leaves only the created user and gives the audio apology; otherwise the shared conversation step with "[Áudio] " plus the transcription stored, the bare transcription sent, and the audio apology |
| ConversationManager.DecimalPoint | src/managers/conversation.manager.js:156 | `replace(',', '.')`: only the first comma becomes a point, every other character is kept, and no character before the first comma changes |
| ConversationManager.WeightField | src/managers/conversation.manager.js:153-157 | found exactly when a "kg" or a "peso" pattern matches; the leftmost "kg" number wins, otherwise the leftmost "peso" number, with its comma made a point |
| ConversationManager.HeightField | src/managers/conversation.manager.js:159-165 | an error exactly when neither "cm" nor "altura" matches but `1[.,]?\d{2}` does; otherwise found exactly when "cm" or "altura" matches |
| ConversationManager.HeightFromText | src/managers/conversation.manager.js:159-165 | the leftmost "cm" number wins, otherwise the leftmost "altura" number |
| ConversationManager.AgeField | src/managers/conversation.manager.js:167-171 | found exactly when an "anos" or an "idade" pattern matches; the leftmost "anos" number wins, otherwise the leftmost "idade" number |
| ConversationManager.GenderField | src/managers/conversation.manager.js:173-177 | male exactly when a male word occurs; female exactly when a female word occurs and no male word does |
| ConversationManager.GoalField | src/managers/conversation.manager.js:179-185 | gain, then lose, then maintain, each exactly when its words occur and no earlier goal's words do |
| ConversationManager.NameField | src/managers/conversation.manager.js:187-190 | found exactly when the introduction pattern matches; the word of the leftmost match, at least two letters |
| ConversationManager.ExtractProfileUpdate | src/managers/conversation.manager.js:148-191 | fails exactly when the height fails; otherwise every field is its extractor's result, and the update is empty exactly when nothing in the text feeds a field |
| ConversationManager.ApplyExtraction | src/managers/conversation.manager.js:192-198 | on failure or an empty update the store is unchanged; otherwise only the user's row is patched with the update; validity is kept |
| ConversationManager.ApplyExtractionAsWritten | src/managers/conversation.manager.js:192-198 | over the update statement as written: the same as `ApplyExtraction` when double-quoted strings are literals, otherwise the store unchanged, the error being caught |
| ConversationManager.ProfileNeverStored | src/services/database.service.js:95 | for a message that mentions a profile field, the extraction as written leaves the store unchanged while the intended one changes it |
| ConversationManager.TodaySummary | src/managers/conversation.manager.js:249-284 | onboarding text without a profile; the prompt exactly when no meal row of the user is dated today; otherwise the header, one line per meal in time order, and a total equal to the calories of all the user's meal rows dated today |
| ConversationManager.BuildSummary | src/managers/conversation.manager.js:262-277 | the `reduce` then the `forEach` build the same text as the header, the recursive `SummaryLines` and the total line of the recursive sum |
| ReminderScheduler.CronExpression | src/reminders/reminder.scheduler.js:107-108 | for a well-formed "HH:MM" the expression is minute, space, hour, then " * * *" |
| ReminderScheduler.SplitClock | src/reminders/reminder.scheduler.js:107 | a well-formed time splits on ':' into exactly its hour and its minute |
| ReminderScheduler.CronExpressionInjective | src/reminders/reminder.scheduler.js:107-108 | distinct well-formed times give distinct expressions |
| ReminderScheduler.DefaultSchedule | src/reminders/reminder.scheduler.js:28-31 | each default is scheduled daily at minute 0 of the hour its time names |
| ReminderScheduler.DefaultSends | src/reminders/reminder.scheduler.js:40-55 | at most one send per row, each with the broadcast text and a non-empty phone |
| ReminderScheduler.DefaultSendsPerPhone | src/reminders/reminder.scheduler.js:42-50 | a phone gets the broadcast once per active row it has, so several enabled meal types mean several copies |
| ReminderScheduler.ReminderMessage | src/reminders/reminder.scheduler.js:80-88 | each of the four meal types gets its own template, exactly that type gets it, and any other type gets the generic text |
| ReminderScheduler.DueSends | src/reminders/reminder.scheduler.js:64-69 | a send is made exactly for each row whose first five time characters equal the current time, to its phone with its type's message |
| ReminderScheduler.DueIndices | src/reminders/reminder.scheduler.js:64-65 | the positions of the due rows: increasing, each due, and every due row listed |
| ReminderScheduler.DueSendsPerRow | src/reminders/reminder.scheduler.js:63-69 | one send per due row, in row order: the k-th send is the k-th due row's message to its phone, so a phone with several due rows gets several sends |
| ReminderScheduler.CheckAndSendReminders | src/reminders/reminder.scheduler.js:57-74 | the loop over the active reminders sends exactly the due sends, in row order |
| ReminderScheduler.OffTickNeverDue | src/reminders/reminder.scheduler.js:11 | the check only runs at minutes 00, 15, 30 and 45, so a reminder stored for any other minute is never sent by it |
| ReminderScheduler.CustomMessage | src/reminders/reminder.scheduler.js:111-118 | a custom job's own templates and fallback, each exactly for its type |
| ReminderScheduler.OneLiveJobPerKey | src/reminders/reminder.scheduler.js:101-122 | in a consistent job map two live jobs with the same key are the same job |
| ReminderScheduler.StopJob | src/reminders/reminder.scheduler.js:103-105 | only the job the key names is stopped; the map and every other job are unchanged |
| ReminderScheduler.ScheduleCustomReminder | src/reminders/reminder.scheduler.js:97-130 | the setting is stored whatever happens; the result is true exactly when the expression is accepted, and then the key names a new live job with the expression, phone and message; other keys keep their jobs |
| ReminderScheduler.ScheduleKeepsJobsValid | src/reminders/reminder.scheduler.js:101-122 | the job map stays consistent; after a refused expression no job of the key is live; jobs of other keys are untouched |
| ReminderScheduler.StopKeepsJobsValid | src/reminders/reminder.scheduler.js:103-105 | stopping a job keeps the map consistent |
| ReminderScheduler.AddKeepsJobsValid | src/reminders/reminder.scheduler.js:110-122 | creating a live job and pointing its key at it keeps the map consistent when the key's old job was stopped |
| WhatsAppClient.PhoneOf | src/whatsapp/client.js:66 | a sender id without "@c.us" is the phone itself |
| WhatsAppClient.ChatId | src/whatsapp/client.js:177 | the phone followed by the five-character suffix, never the status broadcast id |
| WhatsAppClient.SuffixOnlyAtEnd | src/whatsapp/client.js:177 | in a chat id built from a phone without the suffix, the first occurrence of "@c.us" is the appended one |
| WhatsAppClient.PhoneOfChatId | src/whatsapp/client.js:66 | removing "@c.us" from a chat id gives back the phone it was built from, whenever that phone does not itself contain "@c.us" |
| WhatsAppClient.SendMessage | src/whatsapp/client.js:175-185 | returns true exactly when the transport succeeded, never raising, addressed to a chat id that reads back as the phone |
| WhatsAppClient.HandleText | src/whatsapp/client.js:95-112 | the two summary words give the summary and change nothing; any other text goes to `handleMessage`; pending map and meals are unchanged |
| WhatsAppClient.HandleMedia | src/whatsapp/client.js:114-133 | failed download: the media apology; "image/" mimetypes: the image notice then the image reply; otherwise "audio" or "ogg": the audio notice then the audio reply; otherwise the unsupported reply; meals unchanged |
| WhatsAppClient.HandleIncoming | src/whatsapp/client.js:60-93 | status updates: no reply, nothing changes; a pending answer is the only reply; otherwise a text message gets exactly the text handler's state and its one reply, and media the media handler's; every other message gets one or two replies |
| WhatsAppClient.OnlyConfirmationRecordsMeals | src/whatsapp/client.js:60-93 | a message changes the meals only when it confirms a live pending entry, and then its only reply is the confirmation |
| WhatsAppClient.EmptyBodyAnswersNothing | src/whatsapp/client.js:71-74 | a message without text never answers a pending confirmation |
| WhatsAppClient.VoiceNoteMimeIsAudio | src/whatsapp/client.js:118-121 | "audio/ogg; codecs=opus" is not an image mimetype and is an audio one |
| WhatsAppClient.VoiceNoteIsAudio | src/whatsapp/client.js:118-121 | a voice note gets the audio notice and then the audio handler's reply |
| WhatsAppClient.PhotoThenYes | src/whatsapp/client.js:60-93 | a photo whose analysis names calories, then "sim" within five minutes, records exactly that food and those calories, and the second message gets the confirmation alone |

## Findings

| source | as written | input that shows it | evidently intended | confidence | as-written member | corrected member |
|---|---|---|---|---|---|---|
| src/services/database.service.js:95 | `updated_at = datetime("now")`: with double-quoted string literals disabled (`SQLITE_DQS=0`, as better-sqlite3 builds SQLite), `"now"` is a column name, so preparing the update throws "no such column: now", and conversation.manager.js:193-197 catches and logs it | the message "peso 70" from a user whose row has an `updated_at` other than the current stamp: no profile field is ever stored | `datetime('now')`, as in the schema defaults at lines 23-24, so the fields are stored | medium; not executed; depends on the SQLite build | ConversationManager.ApplyExtractionAsWritten, ConversationManager.ProfileNeverStored, DatabaseService.UpdateUserProfileAsWritten | ConversationManager.ApplyExtraction |

## Left out

- The network calls `chat`, `analyzeImage` and `transcribeAudio`, with their temporary files and prompts, are outcomes passed in.
- The WhatsApp transport: `whatsapp-web.js`, puppeteer, QR and connection events, and `message.reply` itself. The replies are listed in order instead.
- The "processing" replies that may fail, and the catch blocks of the image and audio handlers and of `handleIncomingMessage`. Apart from store failures, the session manager catches first, so those blocks run only when a reply itself fails. `checkPendingActions` has no `try`, so a store failure while recording a meal would reach the outer catch of `handleIncomingMessage` and its apology; store failures are not modelled.
- node-cron firing and timing. A job is a record with a stopped flag, and the current time is passed in.
- The notices printed to the console.
- SQLite details. `randomblob` ids are replaced by a counter. `created_at` ties at one-second resolution are not modelled; history order is insertion order. Store failures (disk, locks, constraint errors other than uniqueness) are not modelled.
- `getMealsByDateRange` and `getReminderSettings`: nothing in the core calls them.
- Floating point. `calories` is stored as `REAL` and summed with `parseFloat`; the model uses naturals, so `toFixed(0)` of the sum is the sum. Weight and height keep the matched text with its comma made a point, not the `parseFloat` value.
- `parseInt` beyond 2^53 loses precision in JavaScript; the model's numbers are unbounded.
- Unicode case folding beyond ASCII and the Latin-1 letters. `toLowerCase` is modelled on those characters only.
- Lookups of `mealTypeMap`, `goalMap` and the reminder tables with a key that names an `Object.prototype` member (such as "constructor").
- Async interleaving. The model handles one message at a time, and the un-awaited extraction completes before the next message.
- The unhandled rejection from a failed extraction. The `unhandledRejection` handler in `index.js` only logs it, and the process keeps running; the model drops it.
- `index.js`, the entry point: start-up wiring plus the SIGINT and `unhandledRejection` handlers.
- The legacy duplicates `server.js`, `src/server.js`, both `messageHandler.js`, both `db.js` and both `openaiService.js`. They are start-up and I/O wiring with no separate logic.
- DatabaseService.GetAllActiveReminders: the query has no `ORDER BY`, so SQLite may return the joined rows in any order (a scan driven by `users` through `idx_reminder_settings_user` is allowed). The model assumes the reminder table's insertion order.
- DatabaseService.ActiveRowsPerRow: the same assumption of reminder table order for the join.
- ReminderScheduler.DueSendsPerRow: the send order follows the row order of the join, which the model assumes is the reminder table's insertion order.
- ConversationManager.Converse: the users table follows the corrected `ApplyExtraction`. As written, the profile update never prepares when SQLite reads double-quoted strings as identifiers, and the store then keeps its users table; that behaviour is `ConversationManager.ApplyExtractionAsWritten` (see Findings).
- ConversationManager.StoreAnswer: the users table follows the corrected `ApplyExtraction`; the as-written behaviour is `ConversationManager.ApplyExtractionAsWritten`.
- ConversationManager.HandleMessage: stated through `Converse`, so its users table follows the corrected `ApplyExtraction`; the as-written behaviour is `ConversationManager.ApplyExtractionAsWritten`.
- ConversationManager.HandleAudio: stated through `Converse`, so the profile fields of the transcription follow the corrected `ApplyExtraction`; the as-written behaviour is `ConversationManager.ApplyExtractionAsWritten`.
- ReminderScheduler.CronExpression: says nothing about a time that is not "HH:MM". The body keeps the source's "undefined" minute for a time without a colon.
