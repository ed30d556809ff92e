# Discord reminder bot — a verified model of its core

The bot (`index.js`) stores reminders in a key-value database and runs one
cron job per reminder. This project models the part of it that decides what
happens, over an abstract database:

- **Schedule** (`scheduleReminder`): how a stored reminder becomes the cron
  expression `minute hour * * dayOfWeek` and the timezone handed to the cron
  library.
- **Lifecycle**: one firing of a reminder's job. The guild and channel are
  looked up, then the occurrence budget (`times === -1 || sent < times`) is
  checked. With budget left, the message is delivered, `sent` counted and the
  record written back; otherwise the record is deleted. The job keeps its own
  copy of the record, read once when it was scheduled. It mutates that copy
  and never reads the database again. Exhaustion deletes the record but does
  not stop the job.
- **ListCommands** and **Commands**: the slash commands and buttons as
  transitions of the database. These are `/settimezone`, `/setreminder`,
  `/reminderlist`, `/remindercanc`, `/remindercancall` and the two buttons
  `confirm_delete_all` and `cancel_delete_all`. No command stops a job. Listing
  and bulk deletion see every `reminder_` key, of every guild.

The database (a QuickDB instance) is `KeyValue.Db`: an insertion-ordered key
list plus a map. `KeyValue.Store` is the object whose `Set` and `Delete`
change it in place. `Commands.Bot` holds the store, the jobs scheduled so far
and the log of delivered messages. `Lifecycle.ReminderJob` is a job holding its
expression, its timezone and its copy of the record. The JavaScript string
operations the code relies on are modelled in `Strings`:
- `split` and `join`;
- `trim`, over the ECMAScript white-space and line-terminator characters;
- decimal rendering of numbers.

The model keeps these behaviours of the source, which a reader might not
expect:
- A fire does not re-read the reminder from the database before acting. It
  uses the copy captured at scheduling time (see Findings).
- Cancelling one reminder, deleting all, or exhausting the budget never stops
  a job.
- Listing, cancel-by-number and delete-all are not scoped to the invoking
  guild.
- Nothing re-schedules stored reminders when the process starts.
  `Commands.Bot.constructor` opens whatever database is on disk and starts
  with no jobs, so stored reminders stay silent until recreated.
- A rejected `ch.send` ends the callback before `sent` is incremented. It is
  awaited, so the failure is not counted as a delivery and no write happens.

`Commands.Bot.Fire` runs the callback as written, so that the bot's behaviour
is the source's. The corrected callback `Lifecycle.ReminderJob.FireRereading`
sits beside it, with the property the source evidently intends proved about it
(see Findings).

## Model

| member | source | states |
|---|---|---|
| Strings.Split | index.js:62 | `time.split(':')` gives at least one piece, and no piece contains `:` |
| Strings.JoinSplit | index.js:62 | joining the pieces of a split with the separator gives back the original string |
| Strings.SplitJoin | index.js:62 | splitting a join of separator-free pieces gives back exactly those pieces |
| Strings.TrimEmptyIff | index.js:65 | `trim()` yields the empty string exactly when every character is JavaScript white space |
| Strings.Decimal | index.js:135 | a number renders as a non-empty string of digits without a leading zero |
| Strings.ParseDecimalOfDecimal | index.js:168 | the rendered line number reads back as that number |
| Strings.DecimalInjective | index.js:135 | different numbers render differently |
| KeyValue.FilterOut | index.js:85 | deleting keys from the listing keeps exactly the other keys, without duplicates; a single key is kept exactly when it is not deleted |
| KeyValue.FilterOutAppend | index.js:85 | deleting from a concatenation deletes from each part and keeps the parts in order, so with the single-key case the listing order is kept |
| KeyValue.FilterOutTwice | index.js:99-101 | two successive deletions of key sets are one deletion of their union |
| KeyValue.Put | index.js:83 | `db.set` stores the value under its key, changes no other key, keeps a known key in place and appends a new one |
| KeyValue.Remove | index.js:85 | `db.delete` removes the key, changes no other key and keeps the order of the rest |
| KeyValue.All | index.js:97 | `db.all()` lists every stored key once, in listing order, with its stored value |
| KeyValue.ListedAppend | index.js:139 | storing a new key adds its pair at the end of `db.all()` |
| KeyValue.ListedRemove | index.js:191 | deleting a key drops its pair from `db.all()` and keeps the rest in order |
| KeyValue.DropIdAt | index.js:191 | in a listing with distinct ids, deleting the id at position i removes exactly position i |
| KeyValue.Store.constructor | index.js:15 | opening the database yields exactly the contents held on disk |
| KeyValue.Store.Set | index.js:83 | the in-place `db.set` leaves the database `Put` describes |
| KeyValue.Store.Delete | index.js:85 | the in-place `db.delete` leaves the database `Remove` describes |
| Reminders.ReminderKey | index.js:135 | a reminder's key `reminder_<stamp>` carries the `reminder_` prefix |
| Reminders.TimezoneKey | index.js:121 | a guild's timezone key `tz_<guild>` never carries the `reminder_` prefix |
| Reminders.ReminderKeyInjective | index.js:135 | reminders created at different times get different keys |
| Reminders.ReminderEntries | index.js:98 | the prefix filter never lengthens the listing, and keeps a single entry exactly when its key has the prefix |
| Reminders.ReminderEntriesMembers | index.js:98 | the prefix filter keeps exactly the `reminder_` entries: every kept entry is an input entry with the prefix, and every input entry with the prefix is kept |
| Reminders.ReminderEntriesAppend | index.js:98 | the filter of a concatenation is the concatenation of the filters, so with the single-entry case the listing keeps the order of `db.all()` |
| Reminders.ListingIds | index.js:161 | the listed ids are exactly the stored `reminder_` keys, of every guild, each once |
| Reminders.ListingAfterCreate | index.js:139 | a new reminder is listed last and nothing else in the list moves |
| Reminders.ListingIgnoresOtherKeys | index.js:121 | writing a non-reminder key, such as a timezone, leaves the list unchanged |
| Reminders.ListingAfterRemove | index.js:191 | deleting a key drops that reminder from the list and keeps the order of the rest |
| Schedule.ScheduleTimezone | index.js:72 | the cron timezone is the reminder's timezone when non-empty, else `UTC` |
| Schedule.DayOfWeekFieldSpec | index.js:65-67 | the day field is `*` exactly when `days` is empty or blank, else the untrimmed `days` |
| Schedule.ClockTimeFields | index.js:62 | a time `hh:mm` yields hour `hh` and minute `mm` |
| Schedule.ExtraTimePiecesIgnored | index.js:62 | a third `:` piece is dropped by the destructuring |
| Schedule.TimeWithoutColon | index.js:62 | a time without `:` is the hour whole, and the minute renders as `undefined` |
| Schedule.HourMinuteArePrefix | index.js:62 | hour and minute contain no `:`, and `hour:minute` is how a time containing `:` begins |
| Schedule.CronExpressionFields | index.js:70 | when none of the fields contains a space, the expression splits on spaces into exactly minute, hour, `*`, `*` and the day field |
| Schedule.CronExpressionOfClockTime | index.js:62-70 | a time `hh:mm` schedules `mm hh * * *` for blank days and `mm hh * * days` otherwise |
| Lifecycle.FireStep | index.js:74-87 | an unresolved guild or channel changes nothing; a delivery happens exactly when resolved, with budget and an accepted send, and sends the reminder's own message to its own guild and channel; the job's copy changes only in `sent`, which rises by one exactly on delivery, and is what `db.set` stores, keeping the key's place in the listing; a rejected send, exactly when resolved with budget, changes nothing; exhaustion is `db.delete` of the key; no other key changes |
| Lifecycle.FireRepeatedly | index.js:74-87 | successive fires never touch a key other than the job's own |
| Lifecycle.FiniteBudget | index.js:80-86 | with `times = N` and `sent = 0`, fires 1..N each deliver once and store `sent = n`; every later fire leaves the record deleted and delivers nothing, while the guild and channel resolve and every send goes through |
| Lifecycle.UnboundedBudget | index.js:80-83 | with `times = -1` every fire delivers, counts and stores the record, while the guild and channel resolve and every send goes through |
| Lifecycle.UnresolvedFiresChangeNothing | index.js:75-78 | any number of fires with an unresolvable guild or channel changes nothing |
| Lifecycle.DeletedReminderIsWrittenBack | index.js:59-83 | after a reminder is deleted, the next fire with budget sends again and lists the record again, last |
| Lifecycle.FireStepRereading | index.js:74-87 | the corrected fire: a deleted record stays deleted and nothing is sent; a live one fires from its stored state |
| Lifecycle.DeletedReminderStaysDeleted | index.js:74-87 | with the corrected fire, a deleted reminder stays deleted over any number of fires and nothing is sent |
| Lifecycle.ReminderJob.constructor | index.js:58-72 | the job holds the record read at scheduling time, its cron expression and its timezone |
| Lifecycle.ReminderJob.Fire | index.js:74-87 | the callback updates the job's own copy and the database as `FireStep` describes |
| Lifecycle.ReminderJob.FireRereading | index.js:74-87 | the corrected callback reloads the record first and changes the job and the database as `FireStepRereading` describes |
| ListCommands.ListReplyEmptyIff | index.js:162-173 | the reply is `Nessun reminder.` exactly when nothing is listed, and otherwise an embed titled `🔔 Lista reminder` |
| ListCommands.ListReplyLines | index.js:167-169 | for messages and times without line breaks, the description splits back into one line per listed entry, and line i is `i+1. message (time)` of the i-th entry |
| ListCommands.LineNumberReadsBack | index.js:168 | every line begins with its 1-based number, which reads back as that number |
| ListCommands.Cancel | index.js:181-189 | a number outside 1..count replies `Numero non valido.` and changes nothing |
| ListCommands.CancelRemovesNth | index.js:181-192 | a number in 1..count deletes exactly the n-th listed reminder, keeps the rest of the list in order and changes no other key |
| ListCommands.EmptyListing | index.js:161-162 | a database without `reminder_` keys lists nothing |
| ListCommands.Purge | index.js:96-101 | after deleting all, no `reminder_` key is left, every other key (such as `tz_*`) is kept, and the list is empty |
| ListCommands.RemoveAllAtOnce | index.js:99-101 | deleting keys one after another deletes the set of them, whatever the order |
| ListCommands.DeletingListedPurges | index.js:97-101 | deleting every listed id is the purge |
| ListCommands.CreateListCancel | index.js:139-192 | in a database with no reminders, a created reminder is listed as line 1, and cancelling number 1 empties the list |
| Commands.GuildTimezone | index.js:137 | a new reminder stores the guild's non-empty `tz_` value, and `UTC` when that key is missing or empty; never the empty string |
| Commands.TimezoneSetThenRead | index.js:121-137 | after `/settimezone tz`, the guild's next reminder stores `tz`, or `UTC` if `tz` is empty |
| Commands.TimezoneKeyInjective | index.js:121 | different guilds have different timezone keys |
| Commands.TimezoneSettingIsLocal | index.js:121 | setting one guild's timezone changes neither another guild's timezone nor the reminder list |
| Commands.NewReminderSchedule | index.js:132-149 | a created reminder starts at `sent = 0`, defaults `times` to -1 (unbounded) and `days` to every day, and is scheduled at `mm hh` in the guild's timezone or UTC |
| Commands.PurgedReminderIsWrittenBack | index.js:59-101 | after deleting all, the next fire of a job with budget sends again and the list shows that reminder again |
| Commands.Bot.constructor | index.js:15 | the bot starts over the database on disk with no jobs and no deliveries, so no stored reminder is scheduled |
| Commands.Bot.SetTimezone | index.js:119-123 | `tz_<guild>` is set to the given timezone and the reply quotes it |
| Commands.Bot.ScheduleReminder | index.js:58-72 | a job is created only when a record is stored under the id; it holds that record, its expression and its timezone |
| Commands.Bot.SetReminder | index.js:128-154 | the new record is stored under `reminder_<now>` with the defaults and the guild's timezone, and one job is added for it |
| Commands.Bot.ReminderList | index.js:159-176 | the reply is the list reply of the current database, which is left unchanged |
| Commands.Bot.ReminderCanc | index.js:180-192 | the database and reply are those of `Cancel`; no job is touched |
| Commands.Bot.RequestDeleteAll | index.js:196-212 | asks for confirmation and changes nothing |
| Commands.Bot.ConfirmDeleteAll | index.js:96-105 | deleting the listed ids one by one leaves the purged database; no job is stopped |
| Commands.Bot.CancelDeleteAll | index.js:108-112 | replies that nothing was deleted and changes nothing |
| Commands.Bot.Fire | index.js:74-87 | a job's fire updates its copy and the database as `FireStep` describes, and appends the delivered message to the log |

## Left out

- The discord.js client, login, the slash-command definitions and registration, and the `/help` embed (index.js:9-14, 217-336). These are a foreign library and network I/O.
- The `interactionCreate` dispatch on button ids and command names (index.js:93-245). Each branch is a separate method.
- The Express dashboard and its `/api/reminders` route (index.js:22-55). This is HTTP I/O; its filter is the `reminder_` prefix filter modelled here.
- The cron library's wall-clock matching, IANA timezone resolution and day-of-week numbering (index.js:74, 87). A job is modelled by the expression and timezone it is given, and one fire at a time.
- Schedule.CronExpressionFields: covers only fields without spaces. A time or day list containing a space (for example `days = "1, 3"`, which gives `30 9 * * 1, 3`) yields an expression of more than five space-separated fields; how the cron library reads or rejects such an expression is not modelled.
- Commands.Bot.ScheduleReminder: assumes the cron library accepts every expression and timezone. The library rejects an unreadable field, such as the minute `undefined` from a time without `:` or a day list `8`. The source calls `scheduleReminder` without awaiting or catching it, so in that case the record is stored, no job exists, and the rejection goes unhandled, which by default ends a Node.js process (version 15 and later). Since nothing re-schedules at start, every stored reminder then stays silent after the restart. The model adds a job regardless and does not model the process ending.
- Commands.Bot.SetReminder: makes the same assumption through `ScheduleReminder`, so it always adds one job.
- Guild and channel resolution become a `Directory` parameter. The outcome of `ch.send` becomes a boolean parameter.
- `Date.now()` (index.js:135) is a parameter `now`.
- QuickDB internals. `db.all()` is assumed to list keys in insertion order, with an overwritten key keeping its place.
- Storage errors, and the unhandled rejections they would cause, are not modelled.
- Async interleaving of overlapping fires and commands. Each handler and each fire is one atomic step.
- Reminder fields that JavaScript could leave undefined are modelled as strings and integers. Every record is written by `/setreminder`, which sets every field. An absent `days` or timezone is the empty string.
- `times` and `sent` are unbounded integers. JavaScript number precision is not modelled.
- Commands.GuildTimezone: a non-string value under a `tz_` key reads as `UTC`, whereas JavaScript would store that object as the timezone. The invariant `WellTyped` rules such a value out.
- Lifecycle.FireRepeatedly: states only that other keys are untouched. Its budget behaviour is stated by `FiniteBudget` and `UnboundedBudget`.

## Findings

| source | as written | input that shows it | evidently intended | confidence | as-written member | corrected member |
|---|---|---|---|---|---|---|
| index.js:59-87 | the cron callback works on the record read once at scheduling time and writes it back without checking that it still exists | create a reminder with `times = -1`, cancel it with `/remindercanc 1` (or delete all), then let its job fire | a cancelled or deleted reminder stays deleted and is not sent again | not executed | Lifecycle.DeletedReminderIsWrittenBack | Lifecycle.FireStepRereading |
