/** Deployment windows around school hours, in one time zone without clock shifts. */
module DeployWindow {

  // ----- the calendar: microseconds since the midnight that starts some Monday

  const MINUTE := 60_000_000
  const HOUR := 3_600_000_000
  const DAY := 86_400_000_000
  const SCHOOL_HOURS_START := 8
  const SCHOOL_HOURS_END := 15

  function DayOf(time: int): int { time / DAY }

  function HourOf(time: int): int { time % DAY / HOUR }

  /** `time.change(hour: hour, min: 0, sec: 0)` */
  function AtHour(time: int, hour: int): int { DayOf(time) * DAY + hour * HOUR }

  predicate WeekendDay(day: int) { day % 7 >= 5 }

  predicate Weekend(time: int) { WeekendDay(DayOf(time)) }

  predicate SchoolHours(time: int) {
    !Weekend(time) && SCHOOL_HOURS_START <= HourOf(time) < SCHOOL_HOURS_END
  }

  predicate AllowedNow(time: int) { !SchoolHours(time) }

  /** The instants at which blocking starts and ends. */
  predicate Starts(time: int) { SchoolHours(time) && !SchoolHours(time - 1) }

  predicate Ends(time: int) { !SchoolHours(time) && SchoolHours(time - 1) }

  /** `r` is the first instant after `time` at which blocking starts. */
  ghost predicate NextStart(time: int, r: int) {
    time < r && Starts(r) && forall u | time < u < r :: !Starts(u)
  }

  /** `r` is the first instant after `time` at which blocking ends. */
  ghost predicate NextEnd(time: int, r: int) {
    time < r && Ends(r) && forall u | time < u < r :: !Ends(u)
  }

  // ----- facts about days

  lemma DayBounds(time: int)
    ensures DayOf(time) * DAY <= time < (DayOf(time) + 1) * DAY
  {
  }

  lemma DayIs(time: int, day: int)
    requires day * DAY <= time < (day + 1) * DAY
    ensures DayOf(time) == day
  {
  }

  lemma SchoolHoursAt(time: int, day: int)
    requires day * DAY <= time < (day + 1) * DAY
    ensures SchoolHours(time) <==> !WeekendDay(day) && day * DAY + 8 * HOUR <= time < day * DAY + 15 * HOUR
  {
    DayIs(time, day);
    assert time % DAY == time - day * DAY;
  }

  lemma StartsIff(time: int)
    ensures Starts(time) <==> !Weekend(time) && time == AtHour(time, SCHOOL_HOURS_START)
  {
    DayBounds(time);
    SchoolHoursAt(time, DayOf(time));
    DayBounds(time - 1);
    SchoolHoursAt(time - 1, DayOf(time - 1));
  }

  lemma EndsIff(time: int)
    ensures Ends(time) <==> !Weekend(time) && time == AtHour(time, SCHOOL_HOURS_END)
  {
    DayBounds(time);
    SchoolHoursAt(time, DayOf(time));
    DayBounds(time - 1);
    SchoolHoursAt(time - 1, DayOf(time - 1));
  }

  /** By the calendar: day of the week from Monday, hour, minute, second and microsecond. */
  lemma SchoolHoursSpelled(week: int, day: int, hour: int, minute: int, second: int, micro: int)
    requires 0 <= day < 7 && 0 <= hour < 24 && 0 <= minute < 60 && 0 <= second < 60 && 0 <= micro < 1_000_000
    ensures
      var time := ((((week * 7 + day) * 24 + hour) * 60 + minute) * 60 + second) * 1_000_000 + micro;
      SchoolHours(time) <==> day < 5 && 8 <= hour < 15
  {
    var date, within := week * 7 + day, ((hour * 60 + minute) * 60 + second) * 1_000_000 + micro;
    assert 0 <= within < DAY;
    DayIs(date * DAY + within, date);
    SchoolHoursAt(date * DAY + within, date);
    assert date % 7 == day;
  }

  // ----- the two searches

  /** Blocking starts next at the time returned, whatever the time given. */
  method NextSchoolWindow(time: int) returns (r: int)
    ensures NextStart(time, r)
    ensures DayOf(r) <= DayOf(time) + 3
  {
    hide Starts;
    DayBounds(time);
    var candidate := AtHour(time, SCHOOL_HOURS_START);
    DayIs(candidate, DayOf(time));
    if candidate > time && !Weekend(candidate) {
      StartsSoon(time, DayOf(time), candidate);
      return candidate;
    }
    var nextDay := time + DAY;
    ghost var skipped := 0;
    while Weekend(nextDay)
      invariant 0 <= skipped <= 2 && nextDay == time + DAY + skipped * DAY
      invariant forall d | DayOf(time) < d <= DayOf(time) + skipped :: WeekendDay(d)
      decreases 2 - skipped
    {
      DayIs(nextDay, DayOf(time) + 1 + skipped);
      assert skipped == 2 ==> WeekendDay(DayOf(time) + 1) && WeekendDay(DayOf(time) + 2);
      nextDay := nextDay + DAY;
      skipped := skipped + 1;
    }
    DayIs(nextDay, DayOf(time) + 1 + skipped);
    r := AtHour(nextDay, SCHOOL_HOURS_START);
    DayIs(r, DayOf(nextDay));
    StartsSoon(time, DayOf(nextDay), r);
  }

  /** The start of school on a day, when the days since `time` are weekend days and today's start has passed. */
  lemma StartsSoon(time: int, day: int, r: int)
    requires DayOf(time) <= day && !WeekendDay(day) && r == day * DAY + 8 * HOUR && r > time
    requires forall d | DayOf(time) < d < day :: WeekendDay(d)
    requires DayOf(time) < day ==> DayOf(time) % 7 >= 5 || time >= AtHour(time, SCHOOL_HOURS_START)
    ensures NextStart(time, r)
  {
    hide Starts;
    DayIs(r, day);
    StartsIff(r);
    forall u | time < u < r
      ensures !Starts(u)
    {
      StartsIff(u);
      DayBounds(u);
      DayBounds(time);
    }
  }

  /** Always a later allowed time; while blocked, and on a school day before school, it is when blocking
      ends next. */
  method NextSafeWindow(time: int) returns (r: int)
    ensures r > time && AllowedNow(r) && DayOf(r) <= DayOf(time) + 3
    ensures !Weekend(time) && HourOf(time) < SCHOOL_HOURS_END ==> NextEnd(time, r)
    ensures Weekend(time) || HourOf(time) >= SCHOOL_HOURS_END ==> !Ends(r)
  {
    hide Ends;
    DayBounds(time);
    var candidate := AtHour(time, SCHOOL_HOURS_END);
    DayIs(candidate, DayOf(time));
    EndsIff(candidate);
    SchoolHoursAt(candidate, DayOf(time));
    if candidate > time {
      EndsSoon(time, candidate);
      return candidate;
    }
    var nextDay := time + DAY;
    ghost var skipped := 0;
    while Weekend(nextDay)
      invariant 0 <= skipped <= 2 && nextDay == time + DAY + skipped * DAY
      invariant forall d | DayOf(time) < d <= DayOf(time) + skipped :: WeekendDay(d)
      decreases 2 - skipped
    {
      DayIs(nextDay, DayOf(time) + 1 + skipped);
      assert skipped == 2 ==> WeekendDay(DayOf(time) + 1) && WeekendDay(DayOf(time) + 2);
      nextDay := nextDay + DAY;
      skipped := skipped + 1;
    }
    DayIs(nextDay, DayOf(time) + 1 + skipped);
    r := AtHour(nextDay, 0);
    DayIs(r, DayOf(nextDay));
    SchoolHoursAt(r, DayOf(nextDay));
    EndsIff(r);
  }

  lemma EndsSoon(time: int, r: int)
    requires r == AtHour(time, SCHOOL_HOURS_END) && r > time
    ensures HourOf(time) < SCHOOL_HOURS_END
    ensures !Weekend(time) ==> NextEnd(time, r)
  {
    hide Ends;
    DayBounds(time);
    DayIs(r, DayOf(time));
    EndsIff(r);
    forall u | time < u < r
      ensures !Ends(u)
    {
      DayIs(u, DayOf(time));
      EndsIff(u);
    }
  }

  // ----- the reported status

  datatype Status =
    | Open(nextBlockedWindow: int)
    | Blocked(nextSafeWindow: int, waitMinutes: int)

  /** `(microseconds / 60).round` on a non-negative duration: halves up. */
  function RoundedMinutes(duration: int): int { (duration + MINUTE / 2) / MINUTE }

  /** The reported window is the exact edge: open until it, blocked from it on, or the other way round. */
  method CurrentStatus(time: int) returns (s: Status)
    ensures s.Open? <==> AllowedNow(time)
    ensures s.Open? ==>
      time < s.nextBlockedWindow && SchoolHours(s.nextBlockedWindow)
      && forall u | time <= u < s.nextBlockedWindow :: AllowedNow(u)
    ensures s.Blocked? ==>
      time < s.nextSafeWindow && AllowedNow(s.nextSafeWindow)
      && (forall u | time <= u < s.nextSafeWindow :: SchoolHours(u))
      && s.waitMinutes == RoundedMinutes(s.nextSafeWindow - time)
  {
    if AllowedNow(time) {
      var next := NextSchoolWindow(time);
      OpenUntilStart(time, next);
      s := Open(next);
    } else {
      var next := NextSafeWindow(time);
      BlockedUntilEnd(time, next);
      s := Blocked(next, RoundedMinutes(next - time));
    }
  }

  lemma {:induction false} OpenThrough(time: int, r: int, u: int)
    requires AllowedNow(time) && NextStart(time, r) && time <= u < r
    ensures AllowedNow(u)
    decreases u - time
  {
    if u > time {
      OpenThrough(time, r, u - 1);
      assert !Starts(u);
    }
  }

  lemma {:induction false} BlockedThrough(time: int, r: int, u: int)
    requires SchoolHours(time) && NextEnd(time, r) && time <= u < r
    ensures SchoolHours(u)
    decreases u - time
  {
    if u > time {
      BlockedThrough(time, r, u - 1);
      assert !Ends(u);
    }
  }

  lemma OpenUntilStart(time: int, r: int)
    requires AllowedNow(time) && NextStart(time, r)
    ensures SchoolHours(r) && forall u | time <= u < r :: AllowedNow(u)
  {
    forall u | time <= u < r ensures AllowedNow(u) { OpenThrough(time, r, u); }
  }

  lemma BlockedUntilEnd(time: int, r: int)
    requires SchoolHours(time) && NextEnd(time, r)
    ensures AllowedNow(r) && forall u | time <= u < r :: SchoolHours(u)
  {
    forall u | time <= u < r ensures SchoolHours(u) { BlockedThrough(time, r, u); }
  }

  lemma RoundedMinutesReach(duration: int)
    requires duration >= 0
    ensures
      var over, waited := duration % MINUTE, RoundedMinutes(duration) * MINUTE;
      0 <= waited < duration + MINUTE && (waited >= duration <==> over == 0 || over >= MINUTE / 2)
  {
    var minutes, over := duration / MINUTE, duration % MINUTE;
    assert duration == minutes * MINUTE + over;
    if over >= MINUTE / 2 {
      assert RoundedMinutes(duration) == minutes + 1;
    } else {
      assert RoundedMinutes(duration) == minutes;
    }
  }

  lemma AllowedAfterEnd(safe: int, time: int)
    requires Ends(safe) && safe <= time < safe + MINUTE
    ensures AllowedNow(time)
  {
    hide Ends, SchoolHours;
    EndsIff(safe);
    DayBounds(safe);
    SchoolHoursAt(time, DayOf(safe));
  }

  /** Waiting the reported minutes leads out of the block iff nothing, or at least half a minute, was
      rounded. */
  lemma WaitIsEnoughIff(time: int, safe: int)
    requires SchoolHours(time) && NextEnd(time, safe)
    ensures
      var over := (safe - time) % MINUTE;
      AllowedNow(time + RoundedMinutes(safe - time) * MINUTE) <==> over == 0 || over >= MINUTE / 2
  {
    BlockedUntilEnd(time, safe);
    RoundedMinutesReach(safe - time);
    hide SchoolHours, RoundedMinutes, Ends;
    var after := time + RoundedMinutes(safe - time) * MINUTE;
    if after >= safe {
      AllowedAfterEnd(safe, after);
    } else {
      assert SchoolHours(after);
    }
  }
}
