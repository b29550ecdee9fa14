# RokuNana's Project — a verified model of the agent's core

RokuNana is a chat-bot agent: a language model talks on a chat service, keeps a
transcript, and can call tools — a Google Calendar tool set, a Python-script runner,
and a voice-message sender. This project models in Dafny the parts of the program
that compute something, and proves what they promise:

- **Calendar tools** (`google_calendar_tools.py`), in four modules:
  - `CalendarEvents`: flattening a service event, resolving `today`/`tomorrow`/ISO
    dates, reading `HH:MM` times, and rebuilding start and end in `create_event`
    and `update_event`.
  - `FreeSlots`: the free-slot finder. It collects the busy periods, sorts them,
    merges them, then scans for gaps in the 09:00–17:00 working window.
  - `DailySummary`: the day report with its totals, free time and busiest block.
  - `CalendarDispatch`: the `run_tool` dispatch table.
- **Script runner** (`scripting.py`), module `Scripting`. It builds the result
  records of `run_script`, including output truncation, and the warnings of
  `validate_script`.
- **Agent object** (`core.py`), class `Core.Llm`. Its transcript starts with the
  system prompt and grows one turn at a time. `generate` keeps asking until an
  answer has content.
- **Bot state** (`main.py`), module `Bot`. `Bot.State` holds the shared
  module-level variables that `on_message` and the main loop update: the transcript,
  the part already handed to the agent, the channel label and the back-off delay.
  `Bot.RouteReply` chooses the reply channel.
- **Voice messages** (`voice_utils.py`), module `Voice`, with `Base64`. It builds the
  256-sample waveform preview and its Base64 text, and chooses the file to upload.
- Helpers: `Strings` models Python's `strip`, `lower`, `split`, `join`, `int()` and
  `str()` for integers. `Wrappers` holds `Option` and `Result`.

Time is in whole minutes of local wall-clock time. Day `d` starts at minute
`d * 1440`, and time zones are dropped, as the tools do with `.replace(tzinfo=None)`.
The model also drops seconds. One consequence is not captured: `find_free_slot`
asks the free/busy service about the naive local 09:00–17:00 window rendered with a
`Z` suffix (`_utc_iso`, google_calendar_tools.py:96-97, used at lines 392-393) and
no time zone, while events are stored in `Europe/Paris` time. The service
therefore reads the window as 09:00–17:00 UTC, and the slots it leads to are those
hours shown as local times. The model takes the window and the busy periods in one
time scale.

Everything the program asks of the outside world becomes a parameter:
- the current day;
- the ISO date parser's verdict;
- the events and busy lists the calendar service returns;
- the child process's outcome;
- how saving a file went;
- the model's answers.

## Model

| member | source | states |
|---|---|---|
| CalendarEvents.FormatEvent | google_calendar_tools.py:58-89 | an event is all-day exactly when its start has no date-time (no `T`); an all-day event has no duration and shows "All Day"; a timed one has duration end − start; missing fields get their fixed defaults ("(No title)", "primary", "", []); it raises exactly for a timed event whose end is not a date-time |
| CalendarEvents.FormatEvents | google_calendar_tools.py:153 | the list comprehension succeeds exactly when every event formats, and then holds each formatted event at its own position |
| CalendarEvents.StripPadded | google_calendar_tools.py:108 | stripping removes exactly the white space around a word with non-space ends |
| CalendarEvents.ResolveKeywords | google_calendar_tools.py:100-123 | "today" and "tomorrow" in any letter case and with any surrounding white space resolve to the current and next day, whatever the ISO parser would say |
| CalendarEvents.ParseClock | google_calendar_tools.py:216-218 | a successfully read time has hour 0–23 and minute 0–59 |
| CalendarEvents.TwoDigitsValue | google_calendar_tools.py:217 | `int()` reads a two-digit zero-padded field as its value |
| CalendarEvents.ParseClockTwoDigits | google_calendar_tools.py:216-218 | every valid `HH:MM` text reads back as its hour and minute (round trip) |
| CalendarEvents.CreateEventBody | google_calendar_tools.py:207-227 | the body carries the given title, and start and end share one time-zone field |
| CalendarEvents.CreateEventErrors | google_calendar_tools.py:207-218 | `create_event` fails exactly when the date cannot be resolved or a given time cannot be read |
| CalendarEvents.CreateEventTimes | google_calendar_tools.py:209-227 | without a time the event is all-day with start date = end date = the resolved day; with a time it starts at that time of the resolved day and ends exactly 60 minutes later |
| CalendarEvents.ClockGiven | google_calendar_tools.py:209-218 | a time is read exactly when one is given, so an event is timed exactly when the call has a time |
| CalendarEvents.FormatStored | google_calendar_tools.py:240 | flattening a stored body keeps its title and id; the result is all-day exactly when the start has no date-time, and a timed one reports end − start as its duration |
| CalendarEvents.CreatedEventShape | google_calendar_tools.py:190-240 | the returned event is all-day exactly when no time was given; then it has no duration and start = end; with a time its duration is 60 minutes |
| CalendarEvents.Reschedule | google_calendar_tools.py:283-332 | rewriting start and end in place gives the start and end `Rescheduled` defines, and changes nothing else |
| CalendarEvents.UpdateEvent | google_calendar_tools.py:262-332 | the title changes only when one is given; nothing besides title, start and end ever changes; with neither date nor time, start and end are untouched; otherwise it fails exactly when the base day or the time cannot be read, and the new start and end are those `Rescheduled` gives for the base day |
| CalendarEvents.RescheduledSpec | google_calendar_tools.py:283-332 | a new time puts the start at that time of the base day and keeps the old length (60 minutes for an all-day event); a new date alone keeps a timed event's clock time and length, and keeps an all-day event all-day on the new day |
| FreeSlots.ConcatMembers | google_calendar_tools.py:401-406 | a busy period is collected exactly when some calendar reports it |
| FreeSlots.CollectBusy | google_calendar_tools.py:401-406 | the nested loops collect every calendar's busy list in order |
| FreeSlots.Insert | google_calendar_tools.py:407 | inserting into a sorted list keeps it sorted and adds exactly the element |
| FreeSlots.Sort | google_calendar_tools.py:407 | the sorted list is ordered by (start, end) and is a permutation of the input |
| FreeSlots.SortCovers | google_calendar_tools.py:407 | sorting changes no covered minute |
| FreeSlots.SortWellFormed | google_calendar_tools.py:407 | sorting keeps every period's start at or before its end |
| FreeSlots.MergeBusy | google_calendar_tools.py:409-414 | the merge loop, with its in-place overwrite of the last period, computes `Merged` |
| FreeSlots.MergedLastStart | google_calendar_tools.py:409-414 | on sorted input the last merged period starts no later than the last busy period |
| FreeSlots.FuseCovers | google_calendar_tools.py:411-414 | one fuse-or-append step covers exactly the old minutes plus the new period's |
| FreeSlots.MergedCovers | google_calendar_tools.py:409-414 | merged periods cover exactly the minutes the sorted busy periods cover |
| FreeSlots.MergedSeparated | google_calendar_tools.py:409-414 | each merged period ends strictly before the next starts, so touching or overlapping periods have been fused |
| FreeSlots.MergedWellFormed | google_calendar_tools.py:409-414 | merging keeps every period's start at or before its end |
| FreeSlots.ScanGaps | google_calendar_tools.py:417-439 | the gap loop and the trailing check compute `SlotsOf` |
| FreeSlots.GapScanBasics | google_calendar_tools.py:418-429 | the cursor never moves back: it ends at or after 09:00 and at or after every merged end; every gap slot reports its true length, is at least `duration` long and starts at or after 09:00 |
| FreeSlots.GapScanOrdered | google_calendar_tools.py:418-429 | on separated periods the slots come in time order, each ends by the cursor, and none shares a minute with any merged period |
| FreeSlots.SlotsOfSpec | google_calendar_tools.py:417-441 | all returned slots are long enough, report their length, are in time order and disjoint from busy periods; the last slot runs from the cursor to 17:00 exactly when that stretch is at least `duration`; conversely every stretch of the window at least `duration` long that no merged period meets lies inside one slot |
| FreeSlots.FreeStretchUncovered | google_calendar_tools.py:401-406 | for periods of positive length, a non-empty stretch meets no period exactly when none of its minutes is busy |
| FreeSlots.SortFree | google_calendar_tools.py:407 | sorting never makes a free stretch busy |
| FreeSlots.MergedFree | google_calendar_tools.py:409-414 | fusing touching or overlapping periods never makes a free stretch busy |
| FreeSlots.GapScanComplete | google_calendar_tools.py:418-429 | during the gap loop, a long-enough free stretch from 09:00 on is either still at or after the cursor or already inside a slot |
| FreeSlots.SlotsOfComplete | google_calendar_tools.py:417-441 | every stretch of the working window at least `duration` long that no merged period meets lies inside one returned slot |
| FreeSlots.SlotsOnDay | google_calendar_tools.py:383-441 | collect, sort, merge and scan give `FreeSlotsFor` on the day's 09:00–17:00 window |
| FreeSlots.FindFreeSlot | google_calendar_tools.py:368-441 | it fails exactly when the date cannot be resolved, and otherwise returns the slots of the resolved day |
| FreeSlots.FreeSlotsSpec | google_calendar_tools.py:400-441 | no minute of a returned slot is busy in any calendar; the slots are in time order; each is at least `duration` long and reports its length; the last slot runs from the end of the scan to 17:00 exactly when that stretch is at least `duration`; conversely every stretch of the window at least `duration` long that no busy period meets lies inside one returned slot, so no long-enough free time is missed |
| FreeSlots.FreeSlotsComplete | google_calendar_tools.py:400-441 | a stretch of the working window at least `duration` long that no busy period of any calendar meets lies inside one returned slot |
| DailySummary.TotalAppend | google_calendar_tools.py:460 | the meeting total adds up over consecutive runs of events |
| DailySummary.TotalSkipsAllDay | google_calendar_tools.py:460 | all-day events (no duration) add nothing to the total |
| DailySummary.TotalNonNegative | google_calendar_tools.py:460 | with no negative durations the total is not negative |
| DailySummary.BusiestIndex | google_calendar_tools.py:469-473 | the chosen event has a duration no other exceeds, and every earlier event is strictly shorter (the first maximum), counting all-day as 0 |
| DailySummary.SummaryTotals | google_calendar_tools.py:459-468 | the count is the number of events; the total counts timed events only; free time is never negative, is 0 exactly when meetings fill 480 minutes and otherwise completes the total to 480, and is at most 480 when no duration is negative |
| DailySummary.BusiestBlockSpec | google_calendar_tools.py:469-473 | the busiest block is missing exactly when there are no events; otherwise it is the title of the first longest event |
| DailySummary.DailySummaryOf | google_calendar_tools.py:447-475 | it fails exactly when the date cannot be resolved or an event cannot be formatted; otherwise the report is `Summarize` of the resolved day and the formatted events, so `SummaryTotals` and `BusiestBlockSpec` apply to it |
| CalendarDispatch.RunTool | google_calendar_tools.py:503-516 | the result is the unknown-tool error exactly for a tag outside the seven known ones, with the message "Unknown tool type: " followed by the tag |
| CalendarDispatch.SevenTags | google_calendar_tools.py:480-500 | exactly seven tags are known |
| CalendarDispatch.RequiredArguments | google_calendar_tools.py:480-500 | a known tag fails exactly when a required argument is missing and names the first missing one; optional arguments never cause a failure |
| CalendarDispatch.ArgumentsPassedThrough | google_calendar_tools.py:481-499 | each of the seven handlers receives the values sent under its own keys, and null for a missing optional key; `searchEvent` also gets the fixed 30 days |
| Scripting.PyPrefix | scripting.py:92 | Python's `s[:n]` gives a prefix of `s`, of length `n` when 0 ≤ n ≤ len(s) |
| Scripting.OmittedNoteReadsBack | scripting.py:92 | the truncation note starts and ends with its fixed texts, and the number between them reads back as the count of dropped characters |
| Scripting.RunScript | scripting.py:57-132 | the danger flag is the pattern check; success holds exactly for exit status 0 and exactly when the error is empty; the return code is present exactly on failure; a failed run reports stderr, or the fixed non-zero-status text when stderr is empty; a timeout or exception gives empty output, code −1 and its message |
| Scripting.LimitOutputSpec | scripting.py:90-92 | output within the limit passes untouched; longer output keeps exactly its first `max_output` characters, followed by a note whose number reads back as the count of dropped characters |
| Scripting.ValidateScript | scripting.py:142-187 | a syntax error gives invalid with "Syntax error: " plus the message and no warnings; otherwise the warnings are those of the table entries whose pattern occurs, in table order |
| Scripting.WarningsOfMembers | scripting.py:179-181 | a warning is reported exactly when its pattern occurs; there are no more warnings than table entries |
| Scripting.WarningsOfDistinct | scripting.py:169-181 | with distinct warning texts no warning repeats |
| Scripting.ValidWarnings | scripting.py:169-181 | a script that compiles gets at most seven warnings, none repeated, one per table pattern it contains |
| Scripting.DangerousIffWarned | scripting.py:57-62 | `run_script` flags a script exactly when `validate_script` would warn about it or it contains `compile(` |
| Scripting.DangerousWarned | scripting.py:57-62 | a script with a dangerous pattern gets a warning, unless its only dangerous pattern is `compile(` |
| Scripting.WarnedDangerous | scripting.py:169-181 | a script that gets a warning is flagged as dangerous |
| Core.Llm.constructor | core.py:11-19 | the transcript starts as exactly the system turn with the system prompt |
| Core.AfterSave | core.py:50-57 | the file holds the transcript exactly when it was written, or when opening failed and it already held it; a failure before opening leaves the file as it was; a failure after opening with mode `"w"` leaves it damaged |
| Core.Llm.AddToContext | core.py:39-57 | exactly one turn is appended, and the system turn stays first; the file afterwards is what `AfterSave` gives for the save's outcome |
| Core.Llm.Generate | core.py:20-37 | the prompt is appended as one user turn and saved as `AfterSave` says; the loop stops at the first answer with content, and every earlier answer was empty |
| Bot.ContextLabel | main.py:63-73 | a server message is labelled "server / …", any other "DM / …" |
| Bot.ChannelNote | main.py:75-82 | a single system note is added exactly when there was an earlier label and it differs |
| Bot.ImagePathsNonEmpty | main.py:86-96 | a message gets saved paths exactly when one of its attachments is an image, and never more paths than attachments |
| Bot.SaveImages | main.py:86-96 | the loop over the attachments collects, in order, the saved path of every image attachment and of nothing else |
| Bot.UserEntry | main.py:98-104 | the user turn carries attachments exactly when images were saved |
| Bot.ForwardOf | main.py:157-163 | an entry is handed on with its content and role, and with images exactly when it has a non-empty list |
| Bot.NextWait | main.py:150-154 | a pass with new messages resets the delay to 20 s; an idle pass gives the smaller of 2.75 times the delay and 12 hours |
| Bot.NextWaitBounds | main.py:150-154 | the delay stays between 20 s and 12 hours and never shrinks while idle |
| Bot.IdleWaitReachesCap | main.py:151 | from the start, seven idle passes stay below the cap, the eighth reaches it, and it stays there |
| Bot.IdleWaitStaysCapped | main.py:151 | after eight or more idle passes the delay is 12 hours |
| Bot.RouteReply | main.py:182-235 | an empty reply sends nothing; a reply goes to the last text channel; from a private channel or from no channel, a known target user whose private channel opens gets the reply there; otherwise a private last channel keeps the reply; with no last channel and no opened private channel, no channel is found; group and other channels are never answered |
| Bot.State.constructor | main.py:32-40 | the module-level state starts empty, with no last channel or label and the delay at 20 s |
| Bot.State.OnMessage | main.py:49-111 | run without interruption: the bot's own messages change nothing; any other message sets the timestamp, last channel and label, and appends the channel-change note (if any) and the user turn with its saved image paths; the loop is woken only while backing off |
| Bot.State.ReceiveMessage | main.py:58-82 | the part before the image saves: timestamp, last channel and label are set and only the channel-change note is appended; the handed-on part and the delay are untouched |
| Bot.State.AppendUserTurn | main.py:98-111 | the part after the image saves: exactly the user turn with the saved paths is appended, and the loop is woken only while backing off; the channel fields are untouched |
| Bot.State.MainStep | main.py:140-163 | the entries added since the last pass are handed on in order, each exactly once; the handed-on part stays a prefix of the transcript; the delay follows `NextWait` |
| Bot.ReactionNote | main.py:114-118 | a reaction by the bot itself adds nothing; a reaction by anyone else becomes a system note, without images, that starts with the user and "reacted with" |
| Voice.SampleIndexInRange | voice_utils.py:59-65 | every one of the 256 sample positions lies inside the raw data |
| Voice.SampleIndexMonotone | voice_utils.py:59-63 | sample positions never move backwards |
| Voice.SampleWaveform | voice_utils.py:57-68 | exactly 256 samples; sample i is the raw byte at position ⌊i·n/256⌋ |
| Voice.PreviewText | voice_utils.py:69-71 | the Base64 text of 256 bytes has 344 characters, ends in "==" and decodes back to the bytes |
| Voice.Waveform | voice_utils.py:57-73 | the waveform is 344 Base64 characters ending in "=="; it decodes to 256 bytes, the sampled bytes for non-empty data and the random bytes otherwise, and it is exactly the Base64 encoding of those bytes |
| Voice.ChooseVoiceFile | voice_utils.py:80-83 | the uploaded file always ends in ".ogg"; conversion to "voice-message.ogg" happens exactly when the given name does not end in ".ogg" |
| Base64.SextetRoundTrip | voice_utils.py:69 | each 6-bit value's alphabet character reads back as that value |
| Base64.Encode | voice_utils.py:69 | the text is 4·⌈n/3⌉ characters long |
| Base64.DecodeEncode | voice_utils.py:69 | decoding the Base64 text gives back exactly the bytes (round trip) |
| Base64.EncodeEndsWithDoublePad | voice_utils.py:69 | data whose length leaves remainder 1 modulo 3 encodes to text ending in "==" |
| Strings.Strip | google_calendar_tools.py:108 | `strip()` gives an infix with non-space ends and only white space around it |
| Strings.Lower | google_calendar_tools.py:108 | `lower()` keeps the length and lowers each ASCII letter |
| Strings.Split | google_calendar_tools.py:216 | `split(":")` gives at least one part, and no part holds the separator |
| Strings.JoinSplit | google_calendar_tools.py:216 | joining the parts with the separator gives back the text |
| Strings.ParseInt | google_calendar_tools.py:217 | a successful `int()` read has a non-empty stripped text |
| Strings.ParseIntToString | scripting.py:92 | `int(str(i)) == i` for every integer |
| Strings.NatToStringValue | main.py:92 | the decimal text of a number has no leading zero and reads back as the number |

## Left out

- The Google OAuth flow and every calendar-service call (`events().list/get/insert/update/delete`, `freebusy().query`). What they return is an input; what they are asked to store is an output (`CalendarEvents.Body`, the `UpdateEvent` result).
- `get_event` and `search_event` beyond formatting: the query windows, `maxResults` and full-text search are service-side, and the local clock read `datetime.utcnow()` that sets the search window is left out.
- `delete_event`: it is only a service call and the constant confirmation `{"deleted": True, "event_id": id}`. The dispatcher's `DeleteEvent` call covers its arguments.
- `_dt_iso`, `_utc_iso`, `strftime` renderings (`time_display` text, `day_name`, `date_str`) and ISO parsing. `datetime.fromisoformat` is a parameter, `isoDay`.
- Seconds and microseconds, and time zones. Durations are whole minutes, so the `int(... / 60)` truncation never applies. Offsets and daylight-saving shifts are not modelled.
- `CalendarEvents.FormatEvent`: a start date-time that does not parse is not modelled. An attendee without an `email` key would raise `KeyError`; this is not modelled either. The `attendees` field holds the addresses directly.
- `CalendarEvents.UpdateEvent`: an empty `dateTime` string is treated as absent.
- `CalendarDispatch.RunTool`: argument values are passed on untyped. A handler given a number where it expects text fails inside the handler, and the model does not capture that.
- `DailySummary.SummaryTotals`: `free_min <= 480` is proved only for events that do not end before they start. One such event makes the total negative and `free_min` larger than 480.
- `DailySummary.DailySummaryOf`: the second date resolution inside `get_event(date=day_str)` is taken to give the same day.
- `FreeSlots.FindFreeSlot`: the 09:00–17:00 window the user means is local wall-clock time, but it is sent as UTC (`Z` suffix, no time zone), and the busy times come back in UTC with their zone stripped. The computed slots therefore lie in 09:00–17:00 UTC, one or two hours off the local window; the model takes the window as given and does not capture this shift.
- `FreeSlots.FreeSlotsSpec`: completeness is stated for stretches that no busy period meets. A zero-length busy period strictly inside a stretch splits the gap loop there, so such a stretch may be reported as two shorter slots or not at all.
- `FreeSlots.FindFreeSlot`: slots are proved free and ordered only when every busy period ends no earlier than it starts, as the service reports them.
- `Scripting.RunScript`: `execution_time` (a clock reading) is not modelled. Nor are the temporary file and its removal, or an exception while writing the temporary file, which happens outside the guarded block.
- `Core.Llm.Generate`: the chat endpoint is an input. If no answer has content the source keeps asking forever, and the model returns `None` instead. `generate` returns nothing and does not append the answer, as in the source.
- The calls `main.py` makes that `core.py` does not define are not modelled: the `LLM(model_name=..., client=..., system_prompt=...)` constructor, `summarize_chat`, `generate(rag=...)`, `state`, `reply` and `add_to_context(images=...)`. The reply routing takes the reply fields as parameters.
- `Bot.State.OnMessage`: modelled as one uninterrupted step, although the handler pauses at each image save (`await attachment.save`). During a pause another message or a main-loop pass can run, so another message's entries can land between this note and this turn, and a pass can hand on the note without the turn. Such schedules are expressed by calling `ReceiveMessage`, the other handlers, then `AppendUserTurn`; no property is proved about them.
- `Bot.State`: the asyncio event and waiting, `rag_embedding.read_memory`, sleeping, and the sending and saving of files are left out. An attachment that fails to save is not modelled.
- `Voice.SampleIndex`: `int(i * (n / 256))` is taken as the exact `(i * n) div 256`. The floating-point product can differ only for very large inputs.
- `Voice`: `ffmpeg`/`ffprobe`, the duration reading and the HTTP upload requests are left out. `os.urandom` is a parameter.
- `Strings.ParseInt`: only ASCII digits with an optional sign are modelled, not underscores or other Unicode digits.
- `Strings.Lower`: only ASCII letters are lowered. The code compares the result only with "today" and "tomorrow".
- `tools.py`, `rag_embedding.py`, `elevenlabs_module.py` and `config.py` are not part of this model.
