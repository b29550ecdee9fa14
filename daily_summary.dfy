/**
 * The daily report of the calendar tools: how many events a day holds, how many
 * minutes they take, how much of the eight-hour working day is left, and which
 * event is the longest.
 */
module DailySummary {
  import opened Wrappers
  import opened CalendarEvents
  import opened FreeSlots

  /** Minutes in the working day, `(WORK_END - WORK_START) * 60`. */
  const WorkMinutes: int := (WorkEnd - WorkStart) * 60

  /** The dictionary `daily_summary` returns, without the day's name (a `strftime`
      rendering of `date`). */
  datatype Summary = Summary(
    date: int,
    eventCount: int,
    totalMeetingMin: int,
    freeMin: int,
    busiestBlock: Option<string>,
    events: seq<Event>)

  /** `e["duration_min"] or 0`: all-day events count as 0 minutes. */
  function Minutes(e: Event): int {
    e.durationMin.GetOr(0)
  }

  /** `sum(e["duration_min"] or 0 for e in events)` */
  function TotalMinutes(events: seq<Event>): int {
    if events == [] then 0
    else TotalMinutes(events[..|events| - 1]) + Minutes(events[|events| - 1])
  }

  /** Totals add up over consecutive runs of events. */
  lemma {:induction false} TotalAppend(a: seq<Event>, b: seq<Event>)
    ensures TotalMinutes(a + b) == TotalMinutes(a) + TotalMinutes(b)
  {
    if b != [] {
      var b' := b[..|b| - 1];
      assert (a + b)[..|a + b| - 1] == a + b';
      TotalAppend(a, b');
    } else {
      assert a + b == a;
    }
  }

  /** The timed events, in order. */
  function TimedOnly(events: seq<Event>): seq<Event> {
    if events == [] then []
    else
      var last := events[|events| - 1];
      TimedOnly(events[..|events| - 1]) + (if last.durationMin.Some? then [last] else [])
  }

  /** All-day events add nothing to the total. */
  lemma {:induction false} TotalSkipsAllDay(events: seq<Event>)
    ensures TotalMinutes(events) == TotalMinutes(TimedOnly(events))
  {
    if events != [] {
      var init := events[..|events| - 1];
      var last := events[|events| - 1];
      TotalSkipsAllDay(init);
      if last.durationMin.Some? {
        TotalAppend(TimedOnly(init), [last]);
      } else {
        assert Minutes(last) == 0;
        assert TimedOnly(init) + [] == TimedOnly(init);
      }
    }
  }

  /** Position of the element `max(events, key=...)` returns: the first event of largest
      duration, all-day events counting as 0. */
  function BusiestIndex(events: seq<Event>): (i: nat)
    requires events != []
    ensures i < |events|
    ensures forall j | 0 <= j < |events| :: Minutes(events[j]) <= Minutes(events[i])
    ensures forall j | 0 <= j < i :: Minutes(events[j]) < Minutes(events[i])
  {
    if |events| == 1 then 0
    else
      var init := events[..|events| - 1];
      var best := BusiestIndex(init);
      assert forall j | 0 <= j < |init| :: init[j] == events[j];
      if Minutes(events[|events| - 1]) > Minutes(events[best]) then |events| - 1 else best
  }

  /** The summary of the events of day `day`. */
  function Summarize(day: int, events: seq<Event>): Summary {
    var total := TotalMinutes(events);
    Summary(day, |events|, total, Max(0, WorkMinutes - total),
            if events != [] then Some(events[BusiestIndex(events)].title) else None,
            events)
  }

  /** No event ends before it starts. */
  predicate NoNegativeDurations(events: seq<Event>) {
    forall k | 0 <= k < |events| :: Minutes(events[k]) >= 0
  }

  lemma {:induction false} TotalNonNegative(events: seq<Event>)
    requires NoNegativeDurations(events)
    ensures TotalMinutes(events) >= 0
  {
    if events != [] {
      TotalNonNegative(events[..|events| - 1]);
    }
  }

  /** The report counts every event, and its free time is what is left of the
      480-minute working day, never negative; it stays within the working day as long
      as no event ends before it starts. */
  lemma SummaryTotals(day: int, events: seq<Event>)
    ensures var s := Summarize(day, events);
      && s.date == day && s.eventCount == |events| && s.events == events
      && s.totalMeetingMin == TotalMinutes(TimedOnly(events))
      && 0 <= s.freeMin && WorkMinutes == 480
      && (s.freeMin == 0 <==> s.totalMeetingMin >= 480)
      && (s.freeMin > 0 ==> s.freeMin + s.totalMeetingMin == 480)
      && (NoNegativeDurations(events) ==> s.freeMin <= 480)
  {
    if NoNegativeDurations(events) {
      TotalNonNegative(events);
    }
    TotalSkipsAllDay(events);
  }

  /** The busiest block is missing exactly when there are no events; otherwise it is the
      title of the first event of largest duration. */
  lemma BusiestBlockSpec(day: int, events: seq<Event>)
    ensures var b := Summarize(day, events).busiestBlock;
      && (b.None? <==> events == [])
      && (b.Some? ==>
            exists i | 0 <= i < |events| ::
              && b.value == events[i].title
              && (forall j | 0 <= j < |events| :: Minutes(events[j]) <= Minutes(events[i]))
              && (forall j | 0 <= j < i :: Minutes(events[j]) < Minutes(events[i])))
  {
    if events != [] {
      var i := BusiestIndex(events);
      assert Summarize(day, events).busiestBlock.value == events[i].title;
    }
  }

  /** `daily_summary(date)`: `items` are the events the service lists for the day. */
  function DailySummaryOf(date: string, today: int, isoDay: string -> Option<int>,
                          items: seq<ApiEvent>): (r: Result<Summary, CalendarError>)
    ensures r.Ok? ==> FormatEvents(items).Ok? && r.value.events == FormatEvents(items).value
    ensures r.Ok? ==> ResolveDate(Some(date), today, isoDay).Ok?
                      && r.value == Summarize(ResolveDate(Some(date), today, isoDay).value, FormatEvents(items).value)
    ensures r.Err? <==> ResolveDate(Some(date), today, isoDay).Err? || FormatEvents(items).Err?
  {
    match ResolveDate(Some(date), today, isoDay)
    case Err(e) => Err(e)
    case Ok(day) =>
      match FormatEvents(items)
      case Err(e) => Err(e)
      case Ok(events) => Ok(Summarize(day, events))
  }
}
