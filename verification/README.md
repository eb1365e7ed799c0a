# Bate-ponto: a verified model of the Discord time-clock bot

`ponto.py` is a Discord bot that keeps a time clock for a server's members.
The `/ponto` command (and its aliases) opens a work session for the caller and posts a status card with buttons.
"Pausar" closes the running period, "Continuar" opens a new one, and "Finalizar" ends the session.
While a session is open it lives only in the in-memory registry `pontos_usuarios`.
When a session ends, one row is appended to the workbook `registros_pontos.xlsx`.
The row holds the user's display name, the date, the start and end times of day, and the net worked time as a Portuguese phrase such as "2 horas, 30 minutos".

This project models that core in Dafny and proves properties of it:

- `decimal.dfy` (module `Decimal`): how Python writes a natural number in decimal, and reading it back.
- `time_text.dfy` (module `TimeText`): the duration phrase of `_formatar_tempo_total` and the `%H:%M:%S` time of day.
  The phrase is proved to read back to its hour, minute and second components, and to be injective on whole seconds.
- `platform.dfy` (module `Platform`): the display-name chain used when a record is written.
  The chain tries the guild member, then the global user, then the `Usuário ID: <id>` fallback.
- `record_store.dfy` (module `RecordStore`): the workbook.
  This covers the header check of `_get_excel_sheet` as openpyxl evaluates it, including its `max_column` reading of row 1.
  It also covers what happens to a file that is missing, unreadable or has the wrong header.
- `lifecycle.dfy` (module `Lifecycle`): one session entry and its transitions.
  It proves the accounting invariant: the stored total always equals the sum of the closed active spans between the session's boundary instants.
- `time_clock.dfy` (module `TimeClock`): the class `Bot`.
  Its fields are the session registry, the worksheet last opened and the file on disk.
  Its methods are the handlers: start, pause, resume and finish; saving a finished record; and loading at startup.
  Each method states its whole new state.
  The handlers ask only that every open session has its boundaries on record (`Tracked()`), so they can still be called after a finish whose open raised.
  They keep the accounting invariant `Valid()` whenever it held before, except where the code really breaks it (finding 2).
- `scenarios.dfy` (module `Scenarios`): worked examples and the two findings below.

Instants are natural numbers of microseconds on the local wall clock, which is `timedelta`'s resolution.
Every handler receives the current instant `now` as a parameter.
The date string of a record is also a parameter (`today`).
The platform's caches are a `Directory` value.
The file system is a `StoredFile` value, with a `writable` flag that says whether a save in that call succeeds.

## Model

| member | source | states |
|---|---|---|
| Decimal.FromNatDigits | ponto.py:166-170 | the decimal text of a number is non-empty and all digits, and starts with '0' only for zero |
| Decimal.ValueOfFromNat | ponto.py:166-170 | reading the decimal text of a number back gives the number |
| Decimal.FromNatInjective | ponto.py:166-170 | distinct numbers get distinct decimal texts |
| TimeText.AssembleShape | ponto.py:164-170 | hours and minutes appear only when non-zero, and seconds when non-zero or alone; the parts are well formed and add up to h*3600 + m*60 + s |
| TimeText.ComponentsShape | ponto.py:159-170 | the parts collected for a whole number of seconds are well formed and add up to it; the lone "0 segundo" part occurs exactly for zero |
| TimeText.ComponentsUnique | ponto.py:159-170 | any well-formed list of parts with the same total is the one the formatter builds |
| TimeText.FormatTotalZero | ponto.py:159-171 | the phrase is never empty, and it is "0 segundo" exactly when less than a second was worked |
| TimeText.ParseJoin | ponto.py:166-171 | a phrase joined with ", " parses back into its parts |
| TimeText.FormatTotalReadsBack | ponto.py:155-171 | the phrase of a duration parses back into components whose total is the duration truncated to whole seconds |
| TimeText.FormatTotalInjective | ponto.py:159-171 | two durations get the same phrase exactly when they agree in whole seconds |
| TimeText.TwoDigitsReadsBack | ponto.py:116-117 | a field below 100 is written as two digits that read back as it |
| TimeText.ClockTimeReadsBack | ponto.py:116-117 | `%H:%M:%S` is eight characters with colons at positions 2 and 5; its fields are in range and read back as the instant's time of day |
| Platform.DisplayNameChain | ponto.py:91-110 | the member's display name when the session's channel is a guild text channel and the member resolves; else the global user name; else the fallback label |
| Platform.FirstFound | ponto.py:91-110 | the first resolver that produced a name wins, and the fallback is used when none did |
| Platform.DisplayNameIsFirstFound | ponto.py:91-110 | the nested lookups equal trying member, then user, then the fallback, in that order |
| Platform.FallbackLabelInjective | ponto.py:91 | distinct users get distinct fallback labels |
| RecordStore.MaxColumnBounds | ponto.py:54 | the sheet's `max_column` is at least 1, no row is wider, and it is the width of some row unless it is 1 |
| RecordStore.ReadRowCells | ponto.py:54 | reading the first cells of a row yields one entry per column, the cell's text where the row has one and nothing past its end |
| RecordStore.HeaderMatchesIff | ponto.py:54-55 | the header check passes exactly when the first row is the five headers and no row is wider than five cells |
| RecordStore.OpenOutcome | ponto.py:45-76 | opening fails exactly when the file is unreadable, or when it must be rewritten (missing or wrong header) and cannot be saved; a good file opens as it is, and a rewrite yields the header alone |
| RecordStore.FreshSheetMatches | ponto.py:58-72 | a freshly written workbook passes the header check |
| RecordStore.OpenIdempotent | ponto.py:45-76 | opening what an open produced gives the same sheet |
| RecordStore.AppendThenReopen | ponto.py:119-122 | after appending a five-cell record, the next open keeps every earlier row and the new one |
| RecordStore.WideRowLosesSheet | ponto.py:54-65 | a row wider than the header makes the next open replace the whole sheet with the header alone |
| Lifecycle.MonotoneSnoc | ponto.py:206-282 | adding a boundary no earlier than the last keeps the boundaries in time order |
| Lifecycle.StartedAccounts | ponto.py:326-334 | a new entry is active, has nothing worked, and is accounted by its single start instant |
| Lifecycle.PausedAccounts | ponto.py:206-213 | pausing an active entry adds the running period to the total and keeps it accounted, with the pause as a new boundary |
| Lifecycle.ResumedAccounts | ponto.py:281-282 | resuming a paused entry leaves the total alone and keeps it accounted, with the resume as a new boundary |
| Lifecycle.ClosedWorked | ponto.py:232-237 | the total at finish is the whole active time up to the finish, the running period included when active |
| Lifecycle.ClosedActiveSnoc | ponto.py:206-213 | a new boundary after an odd number of boundaries closes a span, and otherwise adds nothing |
| Lifecycle.AccountedUpdate | ponto.py:29 | replacing one accounted entry keeps the whole registry accounted |
| Lifecycle.AccountedRemove | ponto.py:138-140 | removing an entry keeps the rest of the registry accounted |
| Lifecycle.TwoSpans | ponto.py:206-237 | start, pause, resume and finish total exactly the two active spans |
| TimeClock.RecordRow | ponto.py:113-129 | the record has one cell per header column |
| TimeClock.Bot.constructor | ponto.py:29 | the process starts with no open session |
| TimeClock.Bot.OpenSheet | ponto.py:45-76 | the sheet and file become what `Open` says, and nothing changes when opening fails |
| TimeClock.Bot.Load | ponto.py:143-151 | the registry is emptied and the workbook is opened, or repaired, as `Open` says; a failed open leaves the sheet and the file as they were |
| TimeClock.Bot.Start | ponto.py:316-348 | a second start is refused; otherwise the caller gets an active entry with the card's message and channel, and the invariant is kept |
| TimeClock.Bot.Pause | ponto.py:196-219 | refuses other users and entries that are paused or missing; otherwise the entry becomes `PausedAt`, the pause becomes a boundary, and the invariant is kept |
| TimeClock.Bot.Resume | ponto.py:271-288 | refuses other users and entries that are active or missing; otherwise the entry becomes `ResumedAt`, the resume becomes a boundary, and the invariant is kept |
| TimeClock.Bot.SaveFinished | ponto.py:78-140 | an open that raises changes nothing; a missing entry changes nothing more; otherwise the record is appended and saved when writable, and the entry is dropped whether or not the save succeeded |
| TimeClock.Bot.CloseInPlace | ponto.py:232-237 | the owner's entry in the registry itself becomes the closed entry `ClosedAt`, its running period added to the total; every other entry is unchanged |
| TimeClock.Bot.Finish | ponto.py:222-259 | refuses other users and missing entries; when opening raises, the entry keeps a total enlarged in place and nothing else changes; otherwise the record of the closed entry is appended and the entry is dropped; on a valid registry that total is the active time and the invariant is kept |
| TimeClock.Bot.AppendRecord | ponto.py:113-134 | appends the record of a given closed entry, and saves it when the file is writable |
| TimeClock.Bot.FinishRetryable | ponto.py:222-259 | the finish as intended: the invariant always holds, a failed open changes nothing, and the entry is dropped only when the record was saved |
| Scenarios.FormatOneOfEach | ponto.py:155-171 | 3661 seconds is "1 hora, 1 minuto, 1 segundo" |
| Scenarios.FormatNothing | ponto.py:169-170 | no time worked is "0 segundo" |
| Scenarios.FormatUnderAMinute | ponto.py:159-170 | 59.999999 seconds is "59 segundos" |
| Scenarios.FormatTwoHours | ponto.py:165-166 | 7200 seconds is "2 horas" |
| Scenarios.ClockExamples | ponto.py:116-117 | 09:00 and 10:15 are written "09:00:00" and "10:15:00" |
| Scenarios.Workday | ponto.py:113-129 | starting at 09:00, pausing 09:30–09:45 and finishing at 10:15 records the times "09:00:00" and "10:15:00" and "1 hora" worked |
| Scenarios.FailedFinishOvercounts | ponto.py:232-237 | after a finish whose open raised, the entry is still active, and pausing it counts the earlier running period a second time |
| Scenarios.RetryFinishOvercounts | ponto.py:232-237 | after a finish whose open raised, finishing again counts the earlier running period a second time on top of the active time |
| Scenarios.FinishTwiceOvercounts | ponto.py:222-259 | a finish that fails because the workbook cannot be created, followed by one that succeeds, writes a total of the active time plus the period up to the failed attempt |
| Scenarios.LostRecord | ponto.py:133-140 | a finish whose save fails leaves only the header on file and no open entry |
| Scenarios.RetryKeepsRecord | ponto.py:133-140 | with the retryable finish, a failed save leaves the entry exactly as started and the file as it was |
| Scenarios.RetryRecords | ponto.py:113-140 | with the retryable finish, a failed save followed by a finish on a writable file puts the entry's record, with its active time counted once, after the header, and closes the entry |

## Left out

- The Discord side is not modelled: embeds, buttons and views, ephemeral replies, the status card's text, message edits and the bot's login.
  The model keeps only the message id and channel that `iniciar_ponto` stores in the entry.
- The `/ponto` aliases and prefix parsing are not modelled; the start handler is entered directly.
- openpyxl and the file system are reduced to a `StoredFile` value (missing, unreadable, or rows of text cells).
  A `writable` flag says whether every save within one handler call succeeds.
  The sheet title, cell types and empty cells in the middle of a row are not represented.
- Clocks: `datetime.now()` becomes the `now` parameter.
  The source reads the clock more than once per handler: twice in pause, and in finish for the total and again for the row.
  The model uses one instant per call.
  The date `%d/%m/%Y` is the `today` input; time zones and daylight-saving changes are not modelled.
- Concurrency between handlers (awaits, several users at once) is not modelled; each handler runs atomically.
- The default insertion of `tempo_trabalhado_total` (ponto.py:207-208, 234-235) is not modelled, because every entry is created with that key.
- TimeClock.Bot.Pause: requires `ClockAfter(now)` (no open period starts after `now`), because the wall clock is taken not to run backwards; the source does not check this. The same holds for TimeClock.Bot.Resume, TimeClock.Bot.Finish and TimeClock.Bot.FinishRetryable.
- TimeClock.Bot.Finish: states `Valid()` only when it held before and the outcome is not `StoreUnavailable`, because in that case the code really breaks the invariant (finding 2).
- Console logging (`print`) is not modelled.
- Sessions not surviving a restart is modelled only as `Load` emptying the registry.
- The bot's documented behaviour says a session survives a failed save, but the code drops it; the model follows the code (finding 1) and gives the documented behaviour as the corrected finish.

## Findings

| source | as written | input that shows it | evidently intended | confidence | as-written member | corrected member |
|---|---|---|---|---|---|---|
| ponto.py:133-140 | the entry is deleted after the save attempt, whether or not `workbook.save` raised | finish while the workbook cannot be saved (for example, open in Excel) | keep the entry unless the record was saved, as the comment at line 138 says | not executed | Scenarios.LostRecord | Scenarios.RetryKeepsRecord |
| ponto.py:232-237 | the running period is added to the total in place before `_get_excel_sheet` runs; when that raises, the entry stays active with its period start unchanged | finish with an active entry while the workbook cannot be loaded, then finish (or pause) again | compute the total without changing the entry until the record is written | not executed | Scenarios.FinishTwiceOvercounts | TimeClock.Bot.FinishRetryable |
