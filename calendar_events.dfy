/**
 * Calendar events as the agent's calendar tools see them: flattening an event
 * returned by the calendar service, resolving date arguments, reading `HH:MM`
 * times, and rebuilding start and end when an event is created or updated.
 *
 * Instants are whole minutes of local wall-clock time (time zones are dropped, as
 * the tools do with `.replace(tzinfo=None)`); day `d` starts at minute `d * 1440`.
 * The calendar service itself is outside the model: what it returns is an input,
 * and what it is asked to store is an output.
 */
module CalendarEvents {
  import opened Wrappers
  import opened Strings

  const MinutesPerDay: int := 1440
  /** The zone written into every timed start and end (`config.TIMEZONE`). */
  const TimeZone: string := "Europe/Paris"
  /** Length of a timed event created without a known duration. */
  const DefaultDuration: int := 60

  /** Why a tool call raised instead of returning. */
  datatype CalendarError =
    | InvalidDate          // a date or date-time text Python cannot parse
    | InvalidTime          // a time that is not `HH:MM` with hour 0-23 and minute 0-59
    | MissingKey(key: string)

  /** A `start` or `end` dictionary of a calendar event. `dateTime` is present for a
      timed event and `date` for an all-day one. */
  datatype When = When(dateTime: Option<int>, date: Option<int>, timeZone: Option<string>)

  function TimedAt(minute: int): When {
    When(Some(minute), None, Some(TimeZone))
  }

  function AllDayOn(day: int): When {
    When(None, Some(day), None)
  }

  /** The text `d.get("dateTime", d.get("date", ""))` stands for. An ISO date-time always
      contains a `T`, a plain date never does. */
  datatype Raw = RawDateTime(minute: int) | RawDate(day: int) | RawEmpty {
    predicate HasT() { RawDateTime? }
  }

  function RawOf(w: When): Raw {
    if w.dateTime.Some? then RawDateTime(w.dateTime.value)
    else if w.date.Some? then RawDate(w.date.value)
    else RawEmpty
  }

  /** `_parse_dt(raw)` without its time zone: a date reads as its midnight, and the
      empty text raises `ValueError`. */
  function ParseRaw(r: Raw): Option<int> {
    match r
    case RawDateTime(m) => Some(m)
    case RawDate(d) => Some(d * MinutesPerDay)
    case RawEmpty => None
  }

  /** An event as the calendar service returns it; absent keys are `None`. */
  datatype ApiEvent = ApiEvent(
    id: string,
    summary: Option<string>,
    start: When,
    end: When,
    location: Option<string>,
    description: Option<string>,
    hangoutLink: Option<string>,
    status: Option<string>,
    cal: Option<string>,
    attendees: Option<seq<string>>,  // the attendees' e-mail addresses
    htmlLink: Option<string>)

  /** What `time_display` shows: "All Day", or the start and end clock times. */
  datatype Display = AllDayText | Span(from: int, to: int)

  /** The flat event dictionary the tools return. */
  datatype Event = Event(
    id: string,
    title: string,
    start: Raw,
    end: Raw,
    allDay: bool,
    location: string,
    description: string,
    meetLink: string,
    status: string,
    calendar: string,
    attendees: seq<string>,
    htmlLink: string,
    durationMin: Option<int>,
    timeDisplay: Display)

  /** `_format_event`. For a timed event it subtracts the parsed start from the parsed
      end; that raises unless the end is a date-time too (an empty end does not parse,
      and a plain date has no offset to subtract from an offset date-time). */
  function FormatEvent(e: ApiEvent): (r: Result<Event, CalendarError>)
    ensures r.Err? <==> e.start.dateTime.Some? && e.end.dateTime.None?
    ensures r.Ok? ==>
      var out := r.value;
      && out.id == e.id
      && out.start == RawOf(e.start) && out.end == RawOf(e.end)
      && (out.allDay <==> !out.start.HasT())
      && (out.allDay ==> out.durationMin.None? && out.timeDisplay == AllDayText)
      && (!out.allDay ==> out.durationMin == Some(e.end.dateTime.value - e.start.dateTime.value)
                          && out.timeDisplay == Span(e.start.dateTime.value, e.end.dateTime.value))
      && out.title == e.summary.GetOr("(No title)")
      && out.calendar == e.cal.GetOr("primary")
      && out.location == e.location.GetOr("") && out.description == e.description.GetOr("")
      && out.meetLink == e.hangoutLink.GetOr("") && out.status == e.status.GetOr("")
      && out.attendees == e.attendees.GetOr([]) && out.htmlLink == e.htmlLink.GetOr("")
  {
    var startRaw := RawOf(e.start);
    var endRaw := RawOf(e.end);
    var isAllDay := !startRaw.HasT();
    var base := Event(e.id, e.summary.GetOr("(No title)"), startRaw, endRaw, isAllDay,
                      e.location.GetOr(""), e.description.GetOr(""), e.hangoutLink.GetOr(""),
                      e.status.GetOr(""), e.cal.GetOr("primary"), e.attendees.GetOr([]),
                      e.htmlLink.GetOr(""), None, AllDayText);
    if isAllDay then Ok(base)
    else
      match endRaw
      case RawDateTime(t) =>
        var s := startRaw.minute;
        Ok(base.(durationMin := Some(t - s), timeDisplay := Span(s, t)))
      case _ => Err(InvalidDate)
  }

  /** `[_format_event(e) for e in items]`, as `get_event` and `search_event` return it. */
  function FormatEvents(items: seq<ApiEvent>): (r: Result<seq<Event>, CalendarError>)
    ensures r.Ok? <==> forall k | 0 <= k < |items| :: FormatEvent(items[k]).Ok?
    ensures r.Ok? ==> |r.value| == |items|
                      && forall k | 0 <= k < |items| :: r.value[k] == FormatEvent(items[k]).value
  {
    if items == [] then Ok([])
    else
      match (FormatEvent(items[0]), FormatEvents(items[1..]))
      case (Ok(first), Ok(rest)) =>
        assert forall k | 1 <= k < |items| :: items[k] == items[1..][k - 1];
        Ok([first] + rest)
      case (Err(err), _) => Err(err)
      case (_, Err(err)) =>
        assert exists k | 0 <= k < |items| :: FormatEvent(items[k]).Err? by {
          var j :| 0 <= j < |items[1..]| && FormatEvent(items[1..][j]).Err?;
          assert items[1..][j] == items[j + 1];
        }
        Err(err)
  }

  // ---------------------------------------------------------------------------
  // Date arguments

  /** `_resolve_date(date)`: no date and "today" (in any case, with white space around)
      give the current day, "tomorrow" the next one; any other text goes to
      `datetime.fromisoformat` unchanged (`isoDay`, `None` when it raises). */
  function ResolveDate(date: Option<string>, today: int, isoDay: string -> Option<int>): Result<int, CalendarError> {
    if date.None? then Ok(today)
    else
      var key := Lower(Strip(date.value));
      if key == "today" then Ok(today)
      else if key == "tomorrow" then Ok(today + 1)
      else match isoDay(date.value)
        case Some(d) => Ok(d)
        case None => Err(InvalidDate)
  }

  predicate AllSpace(s: string) {
    forall k | 0 <= k < |s| :: IsSpace(s[k])
  }

  /** Stripping removes exactly the white space put around a word with non-space ends. */
  lemma StripPadded(pre: string, word: string, post: string)
    requires AllSpace(pre) && AllSpace(post)
    requires word != [] && !IsSpace(word[0]) && !IsSpace(word[|word| - 1])
    ensures Strip(pre + word + post) == word
  {
    var s := pre + word + post;
    var r := Strip(s);
    var i :| 0 <= i <= |s| - |r| && StrippedAt(s, r, i);
    // r starts at the first non-space character and ends at the last one
    assert s[|pre|] == word[0];
    assert s[|pre| + |word| - 1] == word[|word| - 1];
    assert i == |pre|;
    assert |r| == |word|;
    assert r == s[|pre|..|pre| + |word|];
  }

  /** "today" and "tomorrow" are recognised whatever their case and surrounding white
      space, without consulting the date parser. */
  lemma ResolveKeywords(pre: string, word: string, post: string, today: int, isoDay: string -> Option<int>)
    requires AllSpace(pre) && AllSpace(post)
    requires Lower(word) == "today" || Lower(word) == "tomorrow"
    ensures ResolveDate(Some(pre + word + post), today, isoDay)
            == Ok(if Lower(word) == "today" then today else today + 1)
  {
    assert LowerChar(word[0]) == 't';
    assert !IsSpace(word[0]);
    assert LowerChar(word[|word| - 1]) == 'y' || LowerChar(word[|word| - 1]) == 'w';
    assert !IsSpace(word[|word| - 1]);
    StripPadded(pre, word, post);
  }

  // ---------------------------------------------------------------------------
  // HH:MM times

  /** `time.strip().split(":")` read as hour and minute, then checked the way
      `datetime.replace(hour=..., minute=...)` checks them. */
  function ParseClock(time: string): (r: Result<(int, int), CalendarError>)
    ensures r.Ok? ==> 0 <= r.value.0 < 24 && 0 <= r.value.1 < 60
  {
    var parts := Split(Strip(time), ':');
    if |parts| < 2 then Err(InvalidTime)
    else
      match (ParseInt(parts[0]), ParseInt(parts[1]))
      case (Some(h), Some(m)) =>
        if 0 <= h < 24 && 0 <= m < 60 then Ok((h, m)) else Err(InvalidTime)
      case _ => Err(InvalidTime)
  }

  function TwoDigits(n: nat): string
    requires n < 100
  {
    [DigitChar(n / 10), DigitChar(n % 10)]
  }

  lemma TwoDigitsValue(n: nat)
    requires n < 100
    ensures ParseInt(TwoDigits(n)) == Some(n)
  {
    var s := TwoDigits(n);
    StripNoSpace(s);
    assert s[..1] == [s[0]];
    assert DigitsValue(s) == DigitsValue(s[..1]) * 10 + DigitValue(s[1]);
  }

  /** Every valid clock time written as `HH:MM` reads back as itself. */
  lemma ParseClockTwoDigits(h: nat, m: nat)
    requires h < 24 && m < 60
    ensures ParseClock(TwoDigits(h) + ":" + TwoDigits(m)) == Ok((h, m))
  {
    var s := TwoDigits(h) + ":" + TwoDigits(m);
    StripNoSpace(s);
    SplitAtSeparator(TwoDigits(h), TwoDigits(m), ':');
    SplitWithoutSeparator(TwoDigits(m), ':');
    TwoDigitsValue(h);
    TwoDigitsValue(m);
  }

  /** The minute at which an `HH:MM` time of day `day` starts. */
  function MinuteOf(day: int, hm: (int, int)): int {
    day * MinutesPerDay + hm.0 * 60 + hm.1
  }

  // ---------------------------------------------------------------------------
  // create_event

  /** The event body `create_event` sends to the calendar service. */
  datatype Body = Body(summary: string, start: When, end: When)

  /** The body of `create_event`: the event starts on the resolved day, at the given
      time when there is one; an all-day event starts and ends on that day, a timed one
      ends an hour after it starts. */
  function CreateEventBody(title: string, date: string, time: Option<string>,
                           today: int, isoDay: string -> Option<int>): (r: Result<Body, CalendarError>)
    ensures r.Ok? ==> r.value.summary == title && r.value.start.timeZone == r.value.end.timeZone
  {
    match ResolveDate(Some(date), today, isoDay)
    case Err(e) => Err(e)
    case Ok(day) =>
      match ClockOf(time)
      case Err(e) => Err(e)
      case Ok(clock) => Ok(BodyAt(title, day, clock))
  }

  /** The body for day `day`: all day without a time, one hour from the time with one. */
  function BodyAt(title: string, day: int, clock: Option<(int, int)>): Body {
    if clock.None? then Body(title, AllDayOn(day), AllDayOn(day))
    else
      var startMin := MinuteOf(day, clock.value);
      Body(title, TimedAt(startMin), TimedAt(startMin + DefaultDuration))
  }

  /** `create_event` raises exactly when the date cannot be resolved or a given time
      cannot be read. */
  lemma CreateEventErrors(title: string, date: string, time: Option<string>, today: int,
                          isoDay: string -> Option<int>)
    ensures CreateEventBody(title, date, time, today, isoDay).Err? <==>
      ResolveDate(Some(date), today, isoDay).Err? || (time.Some? && ParseClock(time.value).Err?)
  {
  }

  /** Where the created event lies: on the resolved day, all day without a time, and
      from the given time for one hour with a time. */
  lemma CreateEventTimes(title: string, date: string, time: Option<string>, today: int,
                         isoDay: string -> Option<int>)
    requires CreateEventBody(title, date, time, today, isoDay).Ok?
    ensures var b := CreateEventBody(title, date, time, today, isoDay).value;
      var day := ResolveDate(Some(date), today, isoDay).value;
      && (time.None? ==> b.start == b.end == AllDayOn(day))
      && (time.Some? ==>
            var at := MinuteOf(day, ClockOf(time).value.value);
            b.start == TimedAt(at) && b.end == TimedAt(at + DefaultDuration))
  {
    var day := ResolveDate(Some(date), today, isoDay).value;
    assert CreateEventBody(title, date, time, today, isoDay).value == BodyAt(title, day, ClockOf(time).value);
  }

  /** The event the service stores for a body, under the id it assigns. */
  function Stored(b: Body, id: string): ApiEvent {
    ApiEvent(id, Some(b.summary), b.start, b.end, None, None, None, None, None, None, None)
  }

  /** Flattening a stored body: an all-day body gives an all-day event without a
      duration; a body with a timed start and end gives their distance. */
  lemma FormatStored(b: Body, id: string)
    requires b.start.dateTime.None? ==> b.start == b.end
    requires b.start.dateTime.Some? ==> b.end.dateTime.Some?
    ensures var out := FormatEvent(Stored(b, id));
      && out.Ok? && out.value.title == b.summary && out.value.id == id
      && (out.value.allDay <==> b.start.dateTime.None?)
      && (b.start.dateTime.None? ==> out.value.durationMin.None? && out.value.start == out.value.end)
      && (b.start.dateTime.Some? ==>
            out.value.durationMin == Some(b.end.dateTime.value - b.start.dateTime.value))
  {
  }

  /** What `create_event` returns: the stored event, flattened. An event created without
      a time is all-day; one created with a time lasts exactly an hour. */
  lemma CreatedEventShape(title: string, date: string, time: Option<string>, today: int,
                          isoDay: string -> Option<int>, id: string)
    requires CreateEventBody(title, date, time, today, isoDay).Ok?
    ensures var out := FormatEvent(Stored(CreateEventBody(title, date, time, today, isoDay).value, id));
      && out.Ok? && out.value.title == title && out.value.id == id
      && (out.value.allDay <==> time.None?)
      && (time.None? ==> out.value.durationMin.None? && out.value.start == out.value.end)
      && (time.Some? ==> out.value.durationMin == Some(DefaultDuration))
  {
    var day := ResolveDate(Some(date), today, isoDay).value;
    var clock := ClockOf(time).value;
    assert CreateEventBody(title, date, time, today, isoDay).value == BodyAt(title, day, clock);
    ClockGiven(time);
    FormatBodyAt(title, day, clock, id);
  }

  /** A time is read exactly when one is given. */
  lemma ClockGiven(time: Option<string>)
    requires ClockOf(time).Ok?
    ensures ClockOf(time).value.None? <==> time.None?
  {
  }

  lemma FormatBodyAt(title: string, day: int, clock: Option<(int, int)>, id: string)
    ensures var out := FormatEvent(Stored(BodyAt(title, day, clock), id));
      && out.Ok? && out.value.title == title && out.value.id == id
      && (out.value.allDay <==> clock.None?)
      && (clock.None? ==> out.value.durationMin.None? && out.value.start == out.value.end)
      && (clock.Some? ==> out.value.durationMin == Some(DefaultDuration))
  {
    FormatStored(BodyAt(title, day, clock), id);
  }

  // ---------------------------------------------------------------------------
  // update_event

  /** The length kept when only the time of an event moves: the old length when the
      event had both a start and an end date-time, an hour otherwise. */
  function KeptDuration(start: When, end: When): int {
    if start.dateTime.Some? && end.dateTime.Some? then end.dateTime.value - start.dateTime.value
    else DefaultDuration
  }

  /** The day an update works on: the new date if one is given, else the day the event
      starts on. */
  function BaseDay(e: ApiEvent, date: Option<string>, today: int, isoDay: string -> Option<int>): Result<int, CalendarError> {
    if date.Some? then ResolveDate(date, today, isoDay)
    else match ParseRaw(RawOf(e.start))
      case Some(m) => Ok(m / MinutesPerDay)
      case None => Err(InvalidDate)
  }

  /** The time argument of `update_event` read as hour and minute (`None`: no time given). */
  function ClockOf(time: Option<string>): Result<Option<(int, int)>, CalendarError> {
    if time.None? then Ok(None)
    else match ParseClock(time.value)
      case Ok(hm) => Ok(Some(hm))
      case Err(e) => Err(e)
  }

  /** The start and end `update_event` writes on day `day`: a new time keeps the old length
      of a timed event (an hour for an all-day one); without a time, a timed event keeps its
      clock time and length and an all-day event stays all-day. */
  function Rescheduled(start: When, end: When, day: int, clock: Option<(int, int)>): (When, When) {
    if clock.Some? then
      var at := MinuteOf(day, clock.value);
      (TimedAt(at), TimedAt(at + KeptDuration(start, end)))
    else if start.dateTime.Some? then
      var oldStart := start.dateTime.value;
      var oldEnd := end.dateTime.GetOr(oldStart);
      var at := day * MinutesPerDay + oldStart % MinutesPerDay;
      (TimedAt(at), TimedAt(at + (oldEnd - oldStart)))
    else
      (AllDayOn(day), AllDayOn(day))
  }

  /** The part of `update_event` that rewrites `start` and `end` in place. */
  method Reschedule(event: ApiEvent, day: int, clock: Option<(int, int)>) returns (ev: ApiEvent)
    ensures (ev.start, ev.end) == Rescheduled(event.start, event.end, day, clock)
    ensures ev.(start := event.start, end := event.end) == event
  {
    ev := event;
    if clock.Some? {
      var startMin := MinuteOf(day, clock.value);
      var duration: int;
      if ev.start.dateTime.Some? && ev.end.dateTime.Some? {
        duration := ev.end.dateTime.value - ev.start.dateTime.value;
      } else {
        duration := DefaultDuration;
      }
      ev := ev.(start := TimedAt(startMin));
      ev := ev.(end := TimedAt(startMin + duration));
    } else if ev.start.dateTime.Some? {
      var oldStart := ev.start.dateTime.value;
      var oldEnd := ev.end.dateTime.GetOr(oldStart);
      var duration := oldEnd - oldStart;
      var startMin := day * MinutesPerDay + oldStart % MinutesPerDay;
      ev := ev.(start := TimedAt(startMin));
      ev := ev.(end := TimedAt(startMin + duration));
    } else {
      ev := ev.(start := AllDayOn(day));
      ev := ev.(end := AllDayOn(day));
    }
  }

  /** `update_event` on the event the service returned: the title changes only when one
      is given; start and end are rebuilt only when a date or a time is given, on the day
      `BaseDay` names. Nothing else in the event changes. */
  method UpdateEvent(event: ApiEvent, title: Option<string>, date: Option<string>, time: Option<string>,
                     today: int, isoDay: string -> Option<int>) returns (r: Result<ApiEvent, CalendarError>)
    ensures r.Ok? ==> r.value.summary == (if title.Some? then title else event.summary)
    ensures r.Ok? ==> r.value.(summary := event.summary, start := event.start, end := event.end) == event
    ensures date.None? && time.None? ==> r.Ok? && r.value.start == event.start && r.value.end == event.end
    ensures (date.Some? || time.Some?) ==>
      (r.Err? <==> BaseDay(event, date, today, isoDay).Err? || ClockOf(time).Err?)
    ensures r.Ok? && (date.Some? || time.Some?) ==>
      && BaseDay(event, date, today, isoDay).Ok? && ClockOf(time).Ok?
      && (r.value.start, r.value.end)
         == Rescheduled(event.start, event.end, BaseDay(event, date, today, isoDay).value, ClockOf(time).value)
  {
    var ev := event;
    if title.Some? {
      ev := ev.(summary := title);
    }
    if date.None? && time.None? {
      return Ok(ev);
    }
    var newDay: int;
    if date.Some? {
      var resolved := ResolveDate(date, today, isoDay);
      if resolved.Err? {
        return Err(resolved.error);
      }
      newDay := resolved.value;
    } else {
      var existing := ParseRaw(RawOf(ev.start));
      if existing.None? {
        return Err(InvalidDate);
      }
      newDay := existing.value / MinutesPerDay;
    }
    var clock := ClockOf(time);
    if clock.Err? {
      return Err(clock.error);
    }
    ev := Reschedule(ev, newDay, clock.value);
    r := Ok(ev);
  }

  /** What a reschedule keeps: with a new time the event starts then on the given day and
      keeps its length (an hour if it was all-day); with a new date alone a timed event
      moves to that day at the same clock time with the same length, and an all-day event
      becomes all-day on that day. */
  lemma RescheduledSpec(start: When, end: When, day: int, clock: Option<(int, int)>)
    requires clock.Some? ==> 0 <= clock.value.0 < 24 && 0 <= clock.value.1 < 60
    ensures var (s, e) := Rescheduled(start, end, day, clock);
      && (s.dateTime.Some? <==> clock.Some? || start.dateTime.Some?)
      && (s.dateTime.Some? ==>
            && e.dateTime.Some? && s.timeZone == e.timeZone == Some(TimeZone)
            && s.dateTime.value / MinutesPerDay == day
            && e.dateTime.value - s.dateTime.value
               == (if clock.None? then end.dateTime.GetOr(start.dateTime.value)
                                       - start.dateTime.value
                   else KeptDuration(start, end)))
      && (clock.Some? ==> s.dateTime.value % MinutesPerDay == clock.value.0 * 60 + clock.value.1)
      && (clock.None? && start.dateTime.Some? ==>
            s.dateTime.value % MinutesPerDay == start.dateTime.value % MinutesPerDay)
      && (s.dateTime.None? ==> s == e && s.date == Some(day))
  {
    var (s, e) := Rescheduled(start, end, day, clock);
    if clock.Some? {
      var m := clock.value.0 * 60 + clock.value.1;
      assert 0 <= m < MinutesPerDay;
      assert s.dateTime.value == day * MinutesPerDay + m;
    } else if start.dateTime.Some? {
      var m := start.dateTime.value % MinutesPerDay;
      assert 0 <= m < MinutesPerDay;
      assert s.dateTime.value == day * MinutesPerDay + m;
    }
  }
}
