# Clinic appointment assistant: a Dafny model of its core

The system is a small clinic back end. This model covers seven of the ten
tools in its tool layer (`app/tools/tools.py`):

- register an account;
- authenticate;
- add a doctor;
- list a doctor's free half-hour slots for a day;
- book a slot;
- produce a doctor's reports;
- keep one JSON blob of chat context per user.

A chat service (`app/core/llm.py`) reads a user's message with
keyword tests and three regular expressions. It decides which tool to call
and with what arguments, then records the exchange in the stored context,
keeping the last ten exchanges.

This project models those operations over an immutable store, states what
each one promises, and proves it. The store holds four tables: users,
doctors, appointments and chat sessions (`app/models.py`). A query's
`.first()` is the first row in table order. An insert that breaks a
database constraint leaves the store unchanged. The constraints are the
unique e-mail of a user, the unique e-mail of a doctor, and the foreign
keys. `WellFormed` collects these constraints, and every writing
operation preserves it.

Modules, in dependency order:

- `Wrappers`:
  - `Option`, first-match search and filtering.
  - The left-most search that regular-expression matching uses.
  - Fresh ids.
- `Text`:
  - ASCII `lower()`, substring test, decimal rendering.
  - Zero padding: `{n:02d}` and `%04d`.
- `Dates`: proleptic Gregorian calendar.
  - `date.fromordinal` and its inverse.
  - `str(date)` as `YYYY-MM-DD`, proved injective.
- `Models`: the four row types, the store, lookups, constraints and inserts.
- `Slots`:
  - The 16-slot grid from 09:00 up to (but not including) 17:00.
  - The `HH:MM` rendering and how it reads back.
  - The free-slot scan (`ScanGrid`, a loop like the source's `while`).
- `Availability`, `Booking`, `Reports`, `Sessions`, `Accounts`: the tools.
- `Patterns`: the three regular expressions, with the engine's semantics.
  - The leftmost match wins.
  - Greedy quantifiers try their longer alternative first.
- `Extraction`: what the chat service reads out of a message.
  - Doctor name and day.
  - Time in 12-hour form, converted to `HH:MM`.
  - Symptom keyword, report type and date filter.
- `Chat`:
  - Tool dispatch.
  - History truncation.
  - One whole chat turn: load the context, call the tools, record the exchange, save the context.

Some behaviours of the code are easy to miss; the model states them as they are:

- **Conflict check.** Booking refuses a slot held by an appointment of *any* status, including cancelled ones (`app/tools/tools.py:164-172`). Availability drops such slots too (`app/tools/tools.py:127-131`). A cancelled appointment therefore never frees its slot. `Availability.AnyStatusBlocks` and `Booking.Book` state this.
- **Off-grid slots.** Booking does not check the slot against the grid, so `17:00` or any other text is accepted for a free (doctor, date). `Booking.OffGridSlotAccepted` proves this.
- **Sessions per user.** Nothing enforces one session row per user: the session tool reads and updates the first row of the user.
- **Report types.** The report types the chat service derives never name one the reports tool accepts (`Extraction.ReportType`). Every report a doctor asks for through the chat therefore comes back as "invalid report type". `Chat.ChatReportsAlwaysInvalid` proves this.

## Model

| member | source | states |
|---|---|---|
| Wrappers.First | app/tools/tools.py:31-33 | `.first()` finds a row exactly when some row matches; the row found is in the table and matches |
| Wrappers.FreshId | app/models.py:12 | a new primary key is positive and differs from every existing row's id |
| Wrappers.OrElse | app/tools/tools.py:35-38 | Python's `or` on an optional text: the value when it is present and non-empty, the fallback otherwise |
| Text.Lower | app/core/llm.py:107 | `lower()` keeps the length, leaves no upper-case letter, keeps every other character, and maps each upper-case letter to the lower-case letter at the same place in the alphabet |
| Text.LowerIdempotent | app/tools/tools.py:268 | lower-casing twice equals lower-casing once (what a case-insensitive comparison relies on) |
| Text.DecimalRoundTrip | app/core/llm.py:198 | reading back the digits of `str(n)` gives `n` |
| Text.Pad2 | app/core/llm.py:198 | `{n:02d}` is all digits, denotes `n`, and is exactly two characters when `n < 100` |
| Text.Pad2Digits | app/tools/tools.py:144 | for `n < 100` the two characters are the tens digit and the units digit |
| Text.Pad2OfTwoDigits | app/core/llm.py:198 | two decimal digits are exactly what `{n:02d}` writes for the number they denote |
| Text.Pad4 | app/tools/tools.py:202 | the year rendering is all digits, denotes the year, and has four characters below 10000 |
| Dates.FromOrdinal | app/tools/tools.py:202-204 | the civil date of a day number is a valid date whose day number is the input |
| Dates.OrdinalRoundTrip | app/tools/tools.py:202-204 | day number to civil date and back is the identity on valid dates |
| Dates.DaysBeforeYearClosedForm | app/tools/tools.py:203-204 | the days before a year follow the Gregorian 4/100/400 leap rule in closed form |
| Dates.FourDigitYears | app/tools/tools.py:202 | every representable day lies in a year of at most four digits |
| Dates.IsoDateInjective | app/tools/tools.py:237 | two different days never render as the same `YYYY-MM-DD` text |
| Models.ParseRole | app/models.py:7-9 | `UserRole(text)` succeeds exactly on `patient` and `doctor`, and the role's value is the text |
| Models.RoleValues | app/models.py:7-9 | parsing a role's value gives the role back; only the two literals parse |
| Models.InsertUser | app/models.py:11-17 | the insert is refused exactly when the e-mail is taken; otherwise one row with the given fields and a new id is appended, and well-formedness is kept |
| Models.InsertDoctor | app/models.py:23-28 | refused exactly when a doctor has the e-mail or the linked account is missing; otherwise appended with a new id, keeping well-formedness |
| Models.InsertAppointment | app/models.py:34-43 | refused exactly when the patient or the doctor row is missing; otherwise appended with status `scheduled`, keeping well-formedness |
| Models.InsertSession | app/models.py:49-54 | refused exactly when the user row is missing; otherwise appended, keeping well-formedness |
| Models.UserAppended | app/models.py:12-13 | appending a user with a fresh id and unused e-mail keeps every existing user and well-formedness |
| Models.DoctorAppended | app/models.py:24-28 | appending a doctor with a fresh id, unused e-mail and valid link keeps well-formedness |
| Models.AppointmentAppended | app/models.py:35-37 | appending an appointment with a fresh id and valid references keeps well-formedness |
| Models.SessionAppended | app/models.py:50-51 | appending a session with a fresh id for an existing user keeps well-formedness |
| Slots.FormatParseRoundTrip | app/tools/tools.py:144 | `strftime("%H:%M")` of a minute of the day reads back as that minute |
| Slots.GridSlotMinute | app/tools/tools.py:143-147 | the i-th slot reads back as minute 540 + 30·i |
| Slots.GridAscending | app/tools/tools.py:138-147 | the grid is strictly ascending and does not contain `17:00` |
| Slots.GridEnds | app/tools/tools.py:138-139 | the grid opens with `09:00` and closes with `16:30` |
| Slots.FreeSlotsMembers | app/tools/tools.py:141-147 | a slot is offered exactly when it is on the grid and not booked |
| Slots.FreeSlotsStep | app/tools/tools.py:143-147 | one more loop iteration appends the slot exactly when it is not booked |
| Slots.FreeSlotsNoneBooked | app/tools/tools.py:141-147 | with nothing booked the whole grid is offered |
| Slots.FreeSlotsAscending | app/tools/tools.py:141-149 | the free slots keep the grid's ascending order |
| Slots.ScanGrid | app/tools/tools.py:138-149 | the `while` loop from 09:00 below 17:00 in 30-minute steps yields exactly the free slots of the grid |
| Availability.Query | app/tools/tools.py:120-149 | not found exactly when no doctor has the name; otherwise a slot is offered exactly when it is on the grid, not held locally (any status) and not in the calendar's list, in ascending order, never `17:00` |
| Availability.EmptyDayOffersWholeGrid | app/tools/tools.py:126-149 | a doctor with no appointments that day and an empty calendar is offered all sixteen slots |
| Availability.AnyStatusBlocks | app/tools/tools.py:127-131 | any appointment of the doctor on the day, whatever its status, removes its slot from the offer |
| Booking.Book | app/tools/tools.py:152-192 | patient check, then doctor-by-name check, then a conflict on (doctor, date, slot) of any status, each refusal leaving the store unchanged; otherwise exactly one `scheduled` row with the given fields is appended, the patient's e-mail and the fixed SMS number are notified, well-formedness kept |
| Booking.NotificationsCannotUndo | app/tools/tools.py:181-190 | the notification outcomes never change what was committed |
| Booking.OfferedSlotCanBeBooked | app/tools/tools.py:164-182 | a slot availability offers is booked for an existing patient |
| Booking.BookedSlotIsTaken | app/tools/tools.py:164-172 | after a booking the slot is no longer offered and a second booking of it is refused without change |
| Booking.OffGridSlotAccepted | app/tools/tools.py:164-182 | `17:00` is not on the grid, yet booking it for a free (doctor, date) succeeds |
| Booking.BookingKeepsSlotsUnique | app/tools/tools.py:164-182 | if no two appointments share doctor, date and slot before a booking, none do after |
| Wrappers.FilterMultiset | app/tools/tools.py:208-213 | a `where` query keeps each row that satisfies the condition as often as the table holds it and drops every other row |
| Wrappers.SelectsTwice | app/tools/tools.py:233-241 | narrowing a selection by a second condition selects by the conjunction of both, as the query's `&` does |
| Reports.OnDay | app/tools/tools.py:208-213 | the rows are a selection: each appointment of the doctor on the date appears exactly as often as in the table, and no other row appears |
| Reports.DailySummaryOf | app/tools/tools.py:206-222 | the day is the filter or today; the rows are exactly the doctor's appointments that day, each as often as in the table, so the total is fixed; completed and scheduled count their statuses and never exceed the total |
| Reports.CompletedOnDay | app/tools/tools.py:233-241 | the completed appointments of the doctor on the day, each exactly as often as in the table, and no other row |
| Reports.YesterdayOf | app/tools/tools.py:233-242 | the day is yesterday, distinct from today; the rows are exactly the doctor's completed appointments that day, each as often as in the table, so the count is fixed |
| Reports.TodayTomorrowOf | app/tools/tools.py:244-261 | today and tomorrow are distinct days; each row list holds exactly the doctor's appointments on its day, each as often as in the table, so both counts are fixed |
| Reports.SymptomCasesOf | app/tools/tools.py:263-272 | the filter is the given text or `fever`; the rows are exactly the doctor's appointments whose symptoms contain it, ignoring case, each as often as in the table, so the case count is fixed |
| Reports.Report | app/tools/tools.py:195-274 | doctor not found first; then each of the four type names selects its report and any other name is invalid; the report names the doctor |
| Reports.DailySummaryGrows | app/tools/tools.py:215-217 | one more scheduled row on the day adds one to the total and to scheduled and leaves completed alone |
| Reports.BookingCountsInDailySummary | app/tools/tools.py:206-222 | a booking shows up in that day's summary as one more scheduled appointment |
| Reports.SymptomFilterIgnoresCase | app/tools/tools.py:263-270 | the symptom report selects the same rows whatever the case of the filter |
| Reports.YesterdayIsPreviousToday | app/tools/tools.py:202-204 | tomorrow's yesterday report is today's completed appointments of the doctor |
| Sessions.StoredBlob | app/tools/tools.py:35-38 | the saved text is the given context when it is non-empty, and `{}` when it is absent or empty; never empty |
| Sessions.Manage | app/tools/tools.py:26-53 | `get` reads without writing; `create`/`update` overwrite or insert the user's blob, changing no other user's blob and no other table; saving for an unknown user is refused; other actions answer nothing |
| Sessions.SessionAppended | app/tools/tools.py:35-37 | inserting the first session of a user makes it that user's blob and keeps every other blob |
| Sessions.SessionUpdated | app/tools/tools.py:38-40 | overwriting the user's session row changes that user's blob only |
| Sessions.SaveThenGet | app/tools/tools.py:29-53 | a save followed by a get returns what was saved, and a second save replaces the first |
| Sessions.NeverSavedReadsEmpty | app/tools/tools.py:50-53 | a user without a session reads `{}` |
| Accounts.Register | app/tools/tools.py:56-86 | taken e-mail and bad role are refused without change; otherwise the account is committed with the lower-cased role, and a doctor with a specialization also gets a linked profile unless a doctor already has the e-mail |
| Accounts.Authenticate | app/tools/tools.py:89-105 | succeeds exactly when the first account with the e-mail has the password, returning its id, name, e-mail and role |
| Accounts.AddDoctor | app/tools/tools.py:108-117 | a taken name is refused; a new name with a taken e-mail reaches the database and is refused; otherwise an unlinked profile is appended |
| Accounts.RegisterThenAuthenticate | app/tools/tools.py:59-105 | a fresh account authenticates with its password under its role, and registering the e-mail again is refused |
| Accounts.WrongPasswordRefused | app/tools/tools.py:95-96 | a wrong password is refused |
| Accounts.RegisteredDoctorHasProfile | app/tools/tools.py:76-84 | a doctor registered with a specialization has a profile the lookup by account finds |
| Accounts.AddedDoctorOffersWholeGrid | app/tools/tools.py:108-149 | right after a doctor is added, the availability query under that name offers all sixteen slots on any date |
| Accounts.DuplicateEmailReachesDatabase | app/tools/tools.py:110-116 | only the name is checked, so a taken e-mail under a new name is refused by the database |
| Patterns.RunExact | app/core/llm.py:160 | a run closed by a non-member character or the end is the longest run, as a greedy quantifier takes it |
| Patterns.SpacedWordRuns | app/core/llm.py:160 | a match of `\s+(\w+)` takes all spaces and then the whole word after them |
| Patterns.SpacedWordAt | app/core/llm.py:160 | the matcher at a position returns exactly the capture of `\s+(\w+)` there, if any |
| Patterns.DoctorAt | app/core/llm.py:160 | the matcher returns exactly the capture of `dr\.?\s+(\w+)` at a position, trying the dot first |
| Patterns.FindDoctor | app/core/llm.py:184 | the search returns the leftmost match of the doctor pattern and its capture, or reports that none exists |
| Patterns.CaptureOf | app/core/llm.py:189-193 | the hour group has one or two digits and the minute group, when present, two |
| Patterns.TimeAt | app/core/llm.py:189 | at a position the time pattern takes the first way through it in backtracking order that matches |
| Patterns.FindTime | app/core/llm.py:189 | the search returns the leftmost position where the time pattern matches, with its groups |
| Patterns.FindIsoDate | app/core/llm.py:252 | the search returns the leftmost ten characters of date shape, or reports that none exists |
| Extraction.Title | app/core/llm.py:161 | `title()` keeps the length, the non-letters and each letter up to case; a letter is upper-case exactly when it starts the text or follows a non-letter |
| Extraction.DoctorTitle | app/core/llm.py:186 | the name is `Dr. ` followed by the word up to case, with each letter after the prefix upper-case exactly when it follows a non-letter, so `dr. smith` yields `Dr. Smith` |
| Extraction.MentionedDoctor | app/core/llm.py:184-186 | a name is found exactly when the lower-cased message matches the doctor pattern somewhere, and it is the title-cased capture of the leftmost match |
| Extraction.ClockDateShape | app/core/llm.py:166-168 | every representable day renders in `YYYY-MM-DD` shape |
| Extraction.DateInText | app/core/llm.py:171-172 | a date is read exactly when the message contains the date pattern, and it is the leftmost match |
| Extraction.DayFrom | app/core/llm.py:203 | yesterday, today and tomorrow render in `YYYY-MM-DD` shape |
| Extraction.VisitDayOffset | app/core/llm.py:202-205 | `tomorrow` wins over `today`; no offset exactly when neither word occurs |
| Extraction.MentionedDay | app/core/llm.py:200-209 | a relative word gives that day (`tomorrow` first); without one, the day is the leftmost `YYYY-MM-DD` in the message, or none |
| Extraction.VisitDate | app/core/llm.py:164-172 | the availability date is the mentioned day, else today, always in `YYYY-MM-DD` shape |
| Extraction.AvailabilityRequest | app/core/llm.py:154-174 | the doctor is the mentioned one or `Dr. Smith` and never empty, and the date is the visit date, so the availability tool is always called |
| Extraction.Hour24 | app/core/llm.py:194-197 | on 12-hour readings the result is an hour of the day, in the morning exactly for `am`, equal to the reading modulo 12; twelve is added exactly for `pm` away from 12, the hour goes down only for `12am`, and every other reading passes through unchanged |
| Extraction.Hour12 | app/core/llm.py:194-197 | every hour of the day has a 12-hour reading from 1 to 12 |
| Extraction.ClockHoursBijective | app/core/llm.py:194-197 | the 12-to-24-hour conversion and its inverse undo each other |
| Extraction.SlotTextIsClockText | app/core/llm.py:191-198 | a reading that names a time of day (converted hour below 24, minute below 60) is written exactly as the grid writes that minute of the day, so the booking's string comparison sees the grid's text |
| Extraction.SlotTextReadsBack | app/core/llm.py:191-198 | the slot text reads back as the converted hour times 60 plus the minute (00 when absent) |
| Extraction.LateAfternoonOffGrid | app/core/llm.py:194-198 | an hour above 12 with `pm` gains twelve more hours and yields a slot that is not on the grid |
| Extraction.FirstMentioned | app/core/llm.py:212-217 | the keyword found is the first in list order that occurs, and none is found exactly when none occurs |
| Extraction.MentionedSlot | app/core/llm.py:189-198 | a slot is read exactly when the time pattern matches, and it is the converted `HH:MM` of the leftmost match |
| Extraction.MentionedSymptoms | app/core/llm.py:211-217 | a symptom note exists exactly when a keyword occurs, and it names the first keyword |
| Extraction.BookingDetails | app/core/llm.py:176-219 | each key is present exactly when its extraction succeeds, holding the extracted value, and no other keys occur |
| Extraction.AllKeys | app/core/llm.py:224 | `all(key in details for key in keys)` |
| Extraction.HasCompleteBookingInfo | app/core/llm.py:221-224 | complete exactly when doctor, date and time are all present |
| Extraction.CompleteBookingMessage | app/core/llm.py:221-224 | a message's details are complete exactly when it names a doctor, a time and a day |
| Extraction.ReportType | app/core/llm.py:226-237 | the type is one of the five chat names, never one of the reports tool's four; `yesterday` decides first, then `today`, then `tomorrow`, then `fever`, and `general_summary` exactly when none of the four words occurs |
| Extraction.ReportDayOffset | app/core/llm.py:244-249 | `yesterday` over `today` over `tomorrow`; no offset exactly when none occurs |
| Extraction.DateFilter | app/core/llm.py:239-253 | a relative word gives that day (`yesterday`, then `today`, then `tomorrow`); without one, the filter is the leftmost `YYYY-MM-DD` in the message, or none |
| Chat.MentionsAny | app/core/llm.py:114 | true exactly when one of the words occurs in the message |
| Chat.BookingCall | app/core/llm.py:121-133 | incomplete details ask for more and change nothing; complete ones call the booking tool with the time, date, doctor and symptom text; accounts, doctors and sessions untouched |
| Chat.ProcessToolCalls | app/core/llm.py:105-149 | availability words first, then `book` from a patient, then report words from a doctor, else no tool; only a booking writes, and it never touches accounts, doctors or sessions |
| Chat.ProfileFoundById | app/core/llm.py:140-144 | the profile found by account is found again by its id |
| Chat.ReportCallRefused | app/core/llm.py:142-144 | a type name the reports tool does not know is refused once the profile is found |
| Chat.ChatReportsAlwaysInvalid | app/core/llm.py:142-144 | every report answered through the chat is the invalid-report-type reply |
| Chat.OnlyPatientBookingsWrite | app/core/llm.py:113-147 | a doctor's message, or any message with an availability word, leaves the store unchanged |
| Chat.ChatBookingRecordsMessage | app/core/llm.py:122-131 | a booking made through the chat records the user, the converted time, the mentioned day and the symptom note (or empty text), as `scheduled` |
| Chat.LastExchanges | app/core/llm.py:57-59 | the history keeps its last ten entries in order, or all of them when there are at most ten |
| Chat.LastExchangesAbsorb | app/core/llm.py:57-59 | truncating before appending and truncating after give the same history |
| Chat.Replay | app/core/llm.py:50-59 | recording turn after turn never leaves more than ten entries |
| Chat.ReplayKeepsLastTen | app/core/llm.py:50-59 | recording many turns one by one keeps the last ten of the whole sequence |
| Chat.LastTwoAfterAppend | app/core/llm.py:51-59 | after an append the previous last entry is second to last and the new entry is last |
| Chat.RecordExchange | app/core/llm.py:47-59 | the last message and response are set, the history is the last ten of the old history plus this exchange, and the exchange's timestamp renders the context as it stood before the append |
| Chat.Conclude | app/core/llm.py:47-61 | the recorded context is saved as the user's blob, no other blob or table changes, well-formedness kept |
| Chat.ChatTurn | app/core/llm.py:20-68 | an unknown user changes nothing; otherwise the response is the tool's reply or the model's text, the context is the loaded one with this exchange recorded and is saved, and only the tool's booking and this user's blob change |
| Chat.SavedContextIsLoaded | app/core/llm.py:31-32 | with a faithful JSON codec, the next turn loads the context this turn saved |
| Chat.NextTurnRemembers | app/core/llm.py:50-59 | after two turns the last two history entries are those two exchanges, in order |

## Left out

- External services are parameters, not models:
  - The e-mail and SMS sending, and the Google Calendar lookup (`app/tools/tools.py:277-424`). Booking passes the two notification outcomes through unchanged, and availability takes the calendar's list of booked slots as a parameter.
  - The language model. Its reply text is a parameter of `Chat.ChatTurn`.
  - The system prompt (`app/core/llm.py:76-103`). It only feeds the language model.
- JSON is a parameter too: encoding and decoding of the stored context are the functions `encode` and `decode`. The `timestamp` field of a history entry holds a rendering of the context (`show`), as the code computes it; its content is not modelled.
- The clock is a parameter: `today` is a day number, and a clock instant `now` is stored unread. A day number strictly inside the range of `date` stands in for `date.today()`, so the `OverflowError` of `date.min - 1` or `date.max + 1` is left out.
- Reply texts are not modelled. Each tool answers with a datatype that carries what the text would show: names, dates, slot lists, counts and row sets.
- Exceptions are not modelled:
  - `process_chat_message` returns an error object when something raises.
  - `_process_tool_calls` returns "Error processing request" when something raises.
  - In `register_user`, `UserRole(role.lower())` raises for an unknown role. The model answers `InvalidRole` instead, without touching the store.
- The daily summary's SMS to the doctor (`app/tools/tools.py:224-229`) is left out. Its result is discarded and it changes no data.
- `lower()`, `title()`, `\s`, `\w` and `\d` are ASCII-only here. Python applies them to all of Unicode.
- `ILIKE` is modelled as a case-insensitive substring test. `%` and `_` inside the filter are not treated as wildcards.
- Concurrency is left out. Each call runs alone on the store, so the check-then-insert race between two bookings is not modelled.
- Ids are modelled as one more than the largest existing id. Sequence gaps after a rolled-back insert are not modelled.
- Keys of the stored context other than the last message, the last response and the history are not modelled; the code carries them over unchanged.
- The per-process `session_contexts` dictionary and the `get_system_prompts` tool are left out. Nothing in the core reads them.
- Extraction.DayFrom: states only the `YYYY-MM-DD` shape of the day. That it is the rendering of today plus the offset is its definition, and `Dates.IsoDateInjective` states what the rendering preserves.
- Slots.ScanGrid: reads each slot's text from `Slots.Grid` instead of formatting the loop's clock value anew. `Slots.Grid` is that formatting, so the two agree.
