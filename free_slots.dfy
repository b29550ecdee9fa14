/**
 * The free-slot finder of the calendar tools: the busy periods the calendar
 * service reports for a day are collected, sorted, fused where they touch or
 * overlap, and the gaps between them inside the 09:00-17:00 working window are
 * returned when they are long enough.
 *
 * Instants are whole minutes of local time, as in `CalendarEvents`. A busy period
 * is a pair (start, end) covering the minutes `start <= t < end`.
 */
module FreeSlots {
  import opened Wrappers
  import opened CalendarEvents

  /** Working hours (`WORK_START`, `WORK_END`). */
  const WorkStart: int := 9
  const WorkEnd: int := 17

  type Interval = (int, int)

  /** One returned slot: `{start, end, duration_min}`. */
  datatype Slot = Slot(start: int, end: int, durationMin: int)

  function Max(a: int, b: int): int {
    if a >= b then a else b
  }

  function Last<T>(s: seq<T>): T
    requires s != []
  {
    s[|s| - 1]
  }

  // ---------------------------------------------------------------------------
  // Which minutes a list of periods covers

  predicate Within(iv: Interval, t: int) {
    iv.0 <= t < iv.1
  }

  predicate Covered(list: seq<Interval>, t: int) {
    exists iv | iv in list :: Within(iv, t)
  }

  lemma CoveredSnoc(list: seq<Interval>, x: Interval, t: int)
    ensures Covered(list + [x], t) <==> Covered(list, t) || Within(x, t)
  {
    if Covered(list + [x], t) {
      var iv :| iv in list + [x] && Within(iv, t);
      if iv != x {
        assert iv in list;
      }
    }
    if Covered(list, t) {
      var iv :| iv in list && Within(iv, t);
      assert iv in list + [x];
    }
    assert x in list + [x];
  }

  /** Every period starts no later than it ends (what the service reports). */
  predicate WellFormed(list: seq<Interval>) {
    forall k | 0 <= k < |list| :: list[k].0 <= list[k].1
  }

  // ---------------------------------------------------------------------------
  // Collecting the busy periods of every calendar

  /** The busy lists of all calendars, one after the other. */
  function Concat(calendars: seq<seq<Interval>>): seq<Interval> {
    if calendars == [] then []
    else Concat(calendars[..|calendars| - 1]) + Last(calendars)
  }

  /** A period is collected exactly when some calendar reports it. */
  lemma {:induction false} ConcatMembers(calendars: seq<seq<Interval>>, iv: Interval)
    ensures iv in Concat(calendars) <==> exists c | 0 <= c < |calendars| :: iv in calendars[c]
  {
    if calendars != [] {
      var init := calendars[..|calendars| - 1];
      ConcatMembers(init, iv);
      if exists c | 0 <= c < |calendars| :: iv in calendars[c] {
        var c :| 0 <= c < |calendars| && iv in calendars[c];
        if c < |init| {
          assert init[c] == calendars[c];
        }
      }
      if iv in Concat(init) {
        var c :| 0 <= c < |init| && iv in init[c];
        assert calendars[c] == init[c];
      }
    }
  }

  /** The two nested loops that fill `busy`. */
  method CollectBusy(calendars: seq<seq<Interval>>) returns (busy: seq<Interval>)
    ensures busy == Concat(calendars)
  {
    busy := [];
    for c := 0 to |calendars|
      invariant busy == Concat(calendars[..c])
    {
      for k := 0 to |calendars[c]|
        invariant busy == Concat(calendars[..c]) + calendars[c][..k]
      {
        busy := busy + [calendars[c][k]];
        assert calendars[c][..k + 1] == calendars[c][..k] + [calendars[c][k]];
      }
      assert calendars[..c + 1][..c] == calendars[..c];
      assert calendars[c][..|calendars[c]|] == calendars[c];
    }
    assert calendars[..|calendars|] == calendars;
  }

  // ---------------------------------------------------------------------------
  // busy.sort(): tuples compare by start, then by end

  predicate Le(a: Interval, b: Interval) {
    a.0 < b.0 || (a.0 == b.0 && a.1 <= b.1)
  }

  predicate Sorted(s: seq<Interval>) {
    forall i, j | 0 <= i < j < |s| :: Le(s[i], s[j])
  }

  function Insert(x: Interval, s: seq<Interval>): (r: seq<Interval>)
    requires Sorted(s)
    ensures Sorted(r) && multiset(r) == multiset(s) + multiset{x}
  {
    if s == [] then [x]
    else if Le(x, s[0]) then [x] + s
    else
      var rest := Insert(x, s[1..]);
      assert s == [s[0]] + s[1..];
      assert forall y | y in rest :: Le(s[0], y) by {
        forall y | y in rest ensures Le(s[0], y) {
          assert y in multiset(rest);
          if y != x {
            assert y in multiset(s[1..]);
          }
        }
      }
      [s[0]] + rest
  }

  /** The order `busy.sort()` leaves the periods in: sorted, and a permutation. */
  function Sort(s: seq<Interval>): (r: seq<Interval>)
    ensures Sorted(r) && multiset(r) == multiset(s)
  {
    if s == [] then []
    else
      assert s == [s[0]] + s[1..];
      Insert(s[0], Sort(s[1..]))
  }

  /** Sorting changes no covered minute. */
  lemma SortCovers(s: seq<Interval>, t: int)
    ensures Covered(Sort(s), t) <==> Covered(s, t)
  {
    var r := Sort(s);
    if Covered(r, t) {
      var iv :| iv in r && Within(iv, t);
      assert iv in multiset(r);
      assert iv in s;
    }
    if Covered(s, t) {
      var iv :| iv in s && Within(iv, t);
      assert iv in multiset(s);
      assert iv in r;
    }
  }

  lemma SortWellFormed(s: seq<Interval>)
    requires WellFormed(s)
    ensures WellFormed(Sort(s))
  {
    var r := Sort(s);
    forall k | 0 <= k < |r| ensures r[k].0 <= r[k].1 {
      assert r[k] in multiset(r);
      assert r[k] in s;
    }
  }

  // ---------------------------------------------------------------------------
  // Merging

  /** One step of the merge loop: a period that starts no later than the last merged
      one ends is fused into it, any other period is appended. */
  function Fuse(merged: seq<Interval>, x: Interval): seq<Interval> {
    if merged != [] && x.0 <= Last(merged).1 then
      merged[|merged| - 1 := (Last(merged).0, Max(Last(merged).1, x.1))]
    else
      merged + [x]
  }

  function Merged(busy: seq<Interval>): seq<Interval> {
    if busy == [] then []
    else Fuse(Merged(busy[..|busy| - 1]), Last(busy))
  }

  /** The merge loop, overwriting `merged[-1]` in place. */
  method MergeBusy(busy: seq<Interval>) returns (merged: seq<Interval>)
    ensures merged == Merged(busy)
  {
    merged := [];
    for i := 0 to |busy|
      invariant merged == Merged(busy[..i])
    {
      var (s, e) := busy[i];
      assert busy[..i + 1][..i] == busy[..i];
      if merged != [] && s <= merged[|merged| - 1].1 {
        merged := merged[|merged| - 1 := (merged[|merged| - 1].0, Max(merged[|merged| - 1].1, e))];
      } else {
        merged := merged + [(s, e)];
      }
    }
    assert busy[..|busy|] == busy;
  }

  /** Starts never decrease along the list (what sorting by tuples guarantees). */
  predicate StartsSorted(s: seq<Interval>) {
    forall i, j | 0 <= i < j < |s| :: s[i].0 <= s[j].0
  }

  /** Each merged period ends strictly before the next one starts. */
  predicate Separated(m: seq<Interval>) {
    forall k | 0 <= k < |m| - 1 :: m[k].1 < m[k + 1].0
  }

  /** The last merged period starts no later than the last busy one. */
  lemma {:induction false} MergedLastStart(busy: seq<Interval>)
    requires StartsSorted(busy) && busy != []
    ensures Merged(busy) != [] && Last(Merged(busy)).0 <= Last(busy).0
  {
    var init := busy[..|busy| - 1];
    if init != [] {
      MergedLastStart(init);
      assert Last(init) == busy[|busy| - 2];
    }
  }

  lemma FuseCovers(merged: seq<Interval>, x: Interval, t: int)
    requires merged != [] ==> Last(merged).0 <= x.0
    ensures Covered(Fuse(merged, x), t) <==> Covered(merged, t) || Within(x, t)
  {
    if merged != [] && x.0 <= Last(merged).1 {
      var init := merged[..|merged| - 1];
      var fused := (Last(merged).0, Max(Last(merged).1, x.1));
      assert merged == init + [Last(merged)];
      assert Fuse(merged, x) == init + [fused];
      CoveredSnoc(init, fused, t);
      CoveredSnoc(init, Last(merged), t);
    } else {
      CoveredSnoc(merged, x, t);
    }
  }

  /** Merging sorted periods covers exactly the minutes the periods cover. */
  lemma {:induction false} MergedCovers(busy: seq<Interval>, t: int)
    requires StartsSorted(busy)
    ensures Covered(Merged(busy), t) <==> Covered(busy, t)
  {
    if busy != [] {
      var init := busy[..|busy| - 1];
      MergedCovers(init, t);
      if init != [] {
        MergedLastStart(init);
        assert Last(init) == busy[|busy| - 2];
      }
      FuseCovers(Merged(init), Last(busy), t);
      assert busy == init + [Last(busy)];
      CoveredSnoc(init, Last(busy), t);
    }
  }

  /** Merging sorted periods leaves them separated by real gaps; touching or
      overlapping periods have been fused. */
  lemma {:induction false} MergedSeparated(busy: seq<Interval>)
    requires StartsSorted(busy)
    ensures Separated(Merged(busy))
  {
    if busy != [] {
      var init := busy[..|busy| - 1];
      MergedSeparated(init);
    }
  }

  lemma {:induction false} MergedWellFormed(busy: seq<Interval>)
    requires WellFormed(busy)
    ensures WellFormed(Merged(busy))
  {
    if busy != [] {
      var init := busy[..|busy| - 1];
      MergedWellFormed(init);
    }
  }

  // ---------------------------------------------------------------------------
  // The gap scan

  /** The slots found so far and the cursor `current`. */
  datatype Scan = Scan(slots: seq<Slot>, cursor: int)

  /** The gap loop over the merged periods. The gap `int((bs - current).total_seconds() / 60)`
      is exact in whole minutes, so truncation never applies. */
  function GapScan(merged: seq<Interval>, dayStart: int, duration: int): Scan {
    if merged == [] then Scan([], dayStart)
    else
      var prev := GapScan(merged[..|merged| - 1], dayStart, duration);
      var (bs, be) := Last(merged);
      var gap := bs - prev.cursor;
      Scan(prev.slots + (if gap >= duration then [Slot(prev.cursor, bs, gap)] else []),
           Max(prev.cursor, be))
  }

  /** The slots `find_free_slot` returns for merged periods: the gaps, then the stretch
      from the cursor to the end of the working day if it is long enough. */
  function SlotsOf(merged: seq<Interval>, dayStart: int, dayEnd: int, duration: int): seq<Slot> {
    var scan := GapScan(merged, dayStart, duration);
    var gap := dayEnd - scan.cursor;
    scan.slots + (if gap >= duration then [Slot(scan.cursor, dayEnd, gap)] else [])
  }

  /** The gap loop and the trailing check. */
  method ScanGaps(merged: seq<Interval>, dayStart: int, dayEnd: int, duration: int) returns (slots: seq<Slot>)
    ensures slots == SlotsOf(merged, dayStart, dayEnd, duration)
  {
    slots := [];
    var current := dayStart;
    for i := 0 to |merged|
      invariant Scan(slots, current) == GapScan(merged[..i], dayStart, duration)
    {
      var (bs, be) := merged[i];
      assert merged[..i + 1][..i] == merged[..i];
      var gap := bs - current;
      if gap >= duration {
        slots := slots + [Slot(current, bs, gap)];
      }
      current := Max(current, be);
    }
    assert merged[..|merged|] == merged;
    var gap := dayEnd - current;
    if gap >= duration {
      slots := slots + [Slot(current, dayEnd, gap)];
    }
  }

  /** The cursor never moves back: it ends at or after the start of the day and after
      every merged period; every slot found is at least `duration` long, reports its
      true length, and starts at or after the start of the day. */
  lemma {:induction false} GapScanBasics(merged: seq<Interval>, dayStart: int, duration: int)
    ensures var sc := GapScan(merged, dayStart, duration);
      && dayStart <= sc.cursor
      && (forall k | 0 <= k < |merged| :: merged[k].1 <= sc.cursor)
      && (forall k | 0 <= k < |sc.slots| ::
            sc.slots[k].durationMin == sc.slots[k].end - sc.slots[k].start
            && sc.slots[k].durationMin >= duration && dayStart <= sc.slots[k].start)
  {
    if merged != [] {
      var init := merged[..|merged| - 1];
      GapScanBasics(init, dayStart, duration);
      assert forall k | 0 <= k < |init| :: merged[k] == init[k];
    }
  }

  /** A slot shares no minute with a period. */
  predicate Apart(s: Slot, iv: Interval) {
    s.end <= iv.0 || iv.1 <= s.start
  }

  /** On well-formed, separated periods the slots come in time order, each ends by the
      cursor and by the start of the last period, and none overlaps a period. */
  lemma {:induction false} GapScanOrdered(merged: seq<Interval>, dayStart: int, duration: int)
    requires WellFormed(merged) && Separated(merged)
    ensures var sc := GapScan(merged, dayStart, duration);
      && (forall k | 0 <= k < |sc.slots| :: sc.slots[k].end <= sc.cursor)
      && (merged != [] ==> forall k | 0 <= k < |sc.slots| :: sc.slots[k].end <= Last(merged).0)
      && (forall k | 0 <= k < |sc.slots| - 1 :: sc.slots[k].end <= sc.slots[k + 1].start)
      && (forall k, j | 0 <= k < |sc.slots| && 0 <= j < |merged| :: Apart(sc.slots[k], merged[j]))
  {
    if merged != [] {
      var init := merged[..|merged| - 1];
      var prev := GapScan(init, dayStart, duration);
      var sc := GapScan(merged, dayStart, duration);
      var x := Last(merged);
      assert forall k | 0 <= k < |init| :: merged[k] == init[k];
      GapScanOrdered(init, dayStart, duration);
      GapScanBasics(init, dayStart, duration);
      if init != [] {
        assert Last(init).0 <= Last(init).1 < x.0;
      }
      assert forall k | 0 <= k < |prev.slots| :: prev.slots[k].end <= x.0;
      forall k, j | 0 <= k < |sc.slots| && 0 <= j < |merged|
        ensures Apart(sc.slots[k], merged[j])
      {
        if k < |prev.slots| {
          assert sc.slots[k] == prev.slots[k];
          if j == |init| {
            assert sc.slots[k].end <= merged[j].0;
          }
        } else {
          assert sc.slots[k] == Slot(prev.cursor, x.0, x.0 - prev.cursor);
          if j < |init| {
            assert merged[j].1 <= prev.cursor;
          }
        }
      }
    }
  }

  /** What `find_free_slot` promises about its slots, given well-formed separated
      periods: each is long enough and reports its length, they come in time order and
      overlap no busy period, and the last one runs to the end of the working day
      exactly when the time after the last busy period is long enough. Conversely,
      every stretch of the window at least `duration` long that no period meets lies
      inside one of the slots. */
  lemma SlotsOfSpec(merged: seq<Interval>, dayStart: int, dayEnd: int, duration: int)
    requires WellFormed(merged) && Separated(merged)
    ensures var slots := SlotsOf(merged, dayStart, dayEnd, duration);
      var cursor := GapScan(merged, dayStart, duration).cursor;
      && (forall k | 0 <= k < |slots| ::
            slots[k].durationMin == slots[k].end - slots[k].start
            && slots[k].durationMin >= duration && dayStart <= slots[k].start)
      && (forall k | 0 <= k < |slots| - 1 :: slots[k].end <= slots[k + 1].start)
      && (forall k, j | 0 <= k < |slots| && 0 <= j < |merged| :: Apart(slots[k], merged[j]))
      && (dayEnd - cursor >= duration <==> slots != [] && Last(slots) == Slot(cursor, dayEnd, dayEnd - cursor))
      && (forall a, b | dayStart <= a < b <= dayEnd && b - a >= duration && FreeStretch(merged, a, b) ::
            exists k | 0 <= k < |slots| :: slots[k].start <= a && b <= slots[k].end)
  {
    var sc := GapScan(merged, dayStart, duration);
    GapScanBasics(merged, dayStart, duration);
    GapScanOrdered(merged, dayStart, duration);
    var slots := SlotsOf(merged, dayStart, dayEnd, duration);
    if dayEnd - sc.cursor < duration && slots != [] {
      assert Last(slots) == Last(sc.slots);
      assert Last(slots).end <= sc.cursor;
    }
    forall a, b | dayStart <= a < b <= dayEnd && b - a >= duration && FreeStretch(merged, a, b)
      ensures exists k | 0 <= k < |slots| :: slots[k].start <= a && b <= slots[k].end
    {
      SlotsOfComplete(merged, dayStart, dayEnd, duration, a, b);
    }
  }

  // ---------------------------------------------------------------------------
  // Completeness: every long-enough free stretch lies inside a returned slot

  /** No period meets the stretch [a, b): each one ends by `a` or starts at or after
      `b`. A zero-length period strictly inside the stretch meets it, since the gap
      loop moves its cursor there and so splits the gap in two. */
  predicate FreeStretch(list: seq<Interval>, a: int, b: int) {
    forall iv | iv in list :: iv.1 <= a || b <= iv.0
  }

  /** For periods of positive length, a non-empty stretch is free exactly when none of its
      minutes is covered. */
  lemma FreeStretchUncovered(list: seq<Interval>, a: int, b: int)
    requires a < b && forall iv | iv in list :: iv.0 < iv.1
    ensures FreeStretch(list, a, b) <==> forall t | a <= t < b :: !Covered(list, t)
  {
    if !FreeStretch(list, a, b) {
      var iv :| iv in list && !(iv.1 <= a || b <= iv.0);
      var t := Max(a, iv.0);
      assert Within(iv, t) && a <= t < b;
      assert Covered(list, t);
    }
  }

  /** Fusing periods that touch or overlap keeps a stretch free. */
  lemma {:induction false} MergedFree(busy: seq<Interval>, a: int, b: int)
    requires a < b && FreeStretch(busy, a, b)
    ensures FreeStretch(Merged(busy), a, b)
  {
    if busy != [] {
      var init := busy[..|busy| - 1];
      assert FreeStretch(init, a, b) by {
        forall iv | iv in init ensures iv.1 <= a || b <= iv.0 {
          assert iv in busy;
        }
      }
      MergedFree(init, a, b);
      assert Last(busy) in busy;
      var m := Merged(init);
      if m != [] {
        assert Last(m) in m;
        forall iv | iv in m[..|m| - 1] ensures iv in m { }
      }
    }
  }

  /** As the gap loop runs, a free stretch long enough is either still ahead of the
      cursor or already inside a slot. */
  lemma {:induction false} GapScanComplete(merged: seq<Interval>, dayStart: int, duration: int, a: int, b: int)
    requires dayStart <= a < b && b - a >= duration && FreeStretch(merged, a, b)
    ensures var sc := GapScan(merged, dayStart, duration);
      sc.cursor <= a || exists k | 0 <= k < |sc.slots| :: sc.slots[k].start <= a && b <= sc.slots[k].end
  {
    if merged != [] {
      var init := merged[..|merged| - 1];
      assert FreeStretch(init, a, b) by {
        forall iv | iv in init ensures iv.1 <= a || b <= iv.0 {
          assert iv in merged;
        }
      }
      GapScanComplete(init, dayStart, duration, a, b);
      var prev := GapScan(init, dayStart, duration);
      var sc := GapScan(merged, dayStart, duration);
      assert Last(merged) in merged;
      if k :| 0 <= k < |prev.slots| && prev.slots[k].start <= a && b <= prev.slots[k].end {
        assert sc.slots[k] == prev.slots[k];
      } else if b <= Last(merged).0 {
        assert sc.slots[|prev.slots|] == Slot(prev.cursor, Last(merged).0, Last(merged).0 - prev.cursor);
      }
    }
  }

  /** Every stretch of the working window at least `duration` long that no merged
      period meets lies inside one returned slot. */
  lemma SlotsOfComplete(merged: seq<Interval>, dayStart: int, dayEnd: int, duration: int, a: int, b: int)
    requires dayStart <= a < b <= dayEnd && b - a >= duration && FreeStretch(merged, a, b)
    ensures var slots := SlotsOf(merged, dayStart, dayEnd, duration);
      exists k | 0 <= k < |slots| :: slots[k].start <= a && b <= slots[k].end
  {
    var sc := GapScan(merged, dayStart, duration);
    var slots := SlotsOf(merged, dayStart, dayEnd, duration);
    GapScanComplete(merged, dayStart, duration, a, b);
    if k :| 0 <= k < |sc.slots| && sc.slots[k].start <= a && b <= sc.slots[k].end {
      assert slots[k] == sc.slots[k];
    } else {
      assert slots[|sc.slots|] == Slot(sc.cursor, dayEnd, dayEnd - sc.cursor);
    }
  }

  // ---------------------------------------------------------------------------
  // find_free_slot

  /** The slots for the busy lists of all calendars. */
  function FreeSlotsFor(calendars: seq<seq<Interval>>, dayStart: int, dayEnd: int, duration: int): seq<Slot> {
    SlotsOf(Merged(Sort(Concat(calendars))), dayStart, dayEnd, duration)
  }

  /** The working window of day `day`: 09:00 to 17:00. */
  function DayStart(day: int): int { day * MinutesPerDay + WorkStart * 60 }
  function DayEnd(day: int): int { day * MinutesPerDay + WorkEnd * 60 }

  /** The body of `find_free_slot` once the day is known: collect, sort, merge, scan. */
  method SlotsOnDay(day: int, duration: int, calendars: seq<seq<Interval>>) returns (slots: seq<Slot>)
    ensures slots == FreeSlotsFor(calendars, DayStart(day), DayEnd(day), duration)
  {
    var busy := CollectBusy(calendars);
    busy := Sort(busy);
    var merged := MergeBusy(busy);
    slots := ScanGaps(merged, DayStart(day), DayEnd(day), duration);
  }

  /** `find_free_slot(date, duration)`. `calendars` holds the busy lists the free/busy
      query returns, already read as minutes. */
  method FindFreeSlot(date: string, duration: int, today: int, isoDay: string -> Option<int>,
                      calendars: seq<seq<Interval>>) returns (r: Result<seq<Slot>, CalendarError>)
    ensures r.Err? <==> ResolveDate(Some(date), today, isoDay).Err?
    ensures r.Ok? ==>
      r.value == FreeSlotsFor(calendars, DayStart(ResolveDate(Some(date), today, isoDay).value),
                              DayEnd(ResolveDate(Some(date), today, isoDay).value), duration)
  {
    var target := ResolveDate(Some(date), today, isoDay);
    if target.Err? {
      return Err(target.error);
    }
    var slots := SlotsOnDay(target.value, duration, calendars);
    r := Ok(slots);
  }

  lemma SortedStarts(s: seq<Interval>)
    requires Sorted(s)
    ensures StartsSorted(s)
  {
  }

  /** The returned slots are free time: no minute of any slot is busy in any calendar,
      the slots come in time order, each is at least `duration` long and reports its
      length, and a slot runs to the end of the working day exactly when the time after
      the last busy period is long enough. Conversely, every stretch of the working
      window at least `duration` long that no busy period of any calendar meets lies
      inside one returned slot. */
  lemma FreeSlotsSpec(calendars: seq<seq<Interval>>, dayStart: int, dayEnd: int, duration: int)
    requires WellFormed(Concat(calendars))
    ensures var slots := FreeSlotsFor(calendars, dayStart, dayEnd, duration);
      && (forall k | 0 <= k < |slots| ::
            slots[k].durationMin == slots[k].end - slots[k].start
            && slots[k].durationMin >= duration && dayStart <= slots[k].start)
      && (forall k | 0 <= k < |slots| - 1 :: slots[k].end <= slots[k + 1].start)
      && (forall k, t | 0 <= k < |slots| && slots[k].start <= t < slots[k].end ::
            !Covered(Concat(calendars), t))
      && (forall a, b | dayStart <= a < b <= dayEnd && b - a >= duration && FreeStretch(Concat(calendars), a, b) ::
            exists k | 0 <= k < |slots| :: slots[k].start <= a && b <= slots[k].end)
      && var cursor := GapScan(Merged(Sort(Concat(calendars))), dayStart, duration).cursor;
         (dayEnd - cursor >= duration <==> slots != [] && Last(slots) == Slot(cursor, dayEnd, dayEnd - cursor))
  {
    var busy := Concat(calendars);
    var sorted := Sort(busy);
    var merged := Merged(sorted);
    SortWellFormed(busy);
    SortedStarts(sorted);
    MergedWellFormed(sorted);
    MergedSeparated(sorted);
    SlotsOfSpec(merged, dayStart, dayEnd, duration);
    var slots := SlotsOf(merged, dayStart, dayEnd, duration);
    forall k, t | 0 <= k < |slots| && slots[k].start <= t < slots[k].end
      ensures !Covered(busy, t)
    {
      ApartNotCovered(slots[k], merged, t);
      MergedCovers(sorted, t);
      SortCovers(busy, t);
    }
    forall a, b | dayStart <= a < b <= dayEnd && b - a >= duration && FreeStretch(busy, a, b)
      ensures exists k | 0 <= k < |slots| :: slots[k].start <= a && b <= slots[k].end
    {
      FreeSlotsComplete(calendars, dayStart, dayEnd, duration, a, b);
    }
  }

  /** A stretch of the working window at least `duration` long that no busy period of
      any calendar meets lies inside one returned slot. */
  lemma FreeSlotsComplete(calendars: seq<seq<Interval>>, dayStart: int, dayEnd: int, duration: int, a: int, b: int)
    requires dayStart <= a < b <= dayEnd && b - a >= duration && FreeStretch(Concat(calendars), a, b)
    ensures var slots := FreeSlotsFor(calendars, dayStart, dayEnd, duration);
      exists k | 0 <= k < |slots| :: slots[k].start <= a && b <= slots[k].end
  {
    var sorted := Sort(Concat(calendars));
    SortFree(Concat(calendars), a, b);
    MergedFree(sorted, a, b);
    SlotsOfComplete(Merged(sorted), dayStart, dayEnd, duration, a, b);
    assert FreeSlotsFor(calendars, dayStart, dayEnd, duration) == SlotsOf(Merged(sorted), dayStart, dayEnd, duration);
  }

  /** Sorting keeps a stretch free. */
  lemma SortFree(s: seq<Interval>, a: int, b: int)
    requires FreeStretch(s, a, b)
    ensures FreeStretch(Sort(s), a, b)
  {
    forall iv | iv in Sort(s) ensures iv.1 <= a || b <= iv.0 {
      assert iv in multiset(Sort(s));
      assert iv in s;
    }
  }

  /** A minute of a slot that keeps apart from every period is covered by none. */
  lemma ApartNotCovered(s: Slot, list: seq<Interval>, t: int)
    requires forall j | 0 <= j < |list| :: Apart(s, list[j])
    requires s.start <= t < s.end
    ensures !Covered(list, t)
  {
  }
}
