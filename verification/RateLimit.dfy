/** The AI gateway's sliding-window rate limiter, refining the plain rule it implements: allow a
    call iff fewer than `limit` calls were allowed in the window ending now. */
module RateLimit {
  import opened Wrappers

  /** Clock readings are counted in microseconds. */
  function Seconds(n: int): int { 1_000_000 * n }

  datatype Answer = Allowed | Rejected(retryAfter: int) | IndexError

  /** Drops the expired entries from the front of a bucket. */
  function Trim(bucket: seq<int>, cutoff: int): seq<int> {
    if bucket != [] && bucket[0] <= cutoff then Trim(bucket[1..], cutoff) else bucket
  }

  function RetryAfter(head: int, now: int, period: int): int {
    var left := (Seconds(period) - (now - head)) / 1_000_000;
    if left > 1 then left else 1
  }

  /** The bucket's own decision; reading the head of an empty bucket raises, which takes a limit of 0. */
  function Decide(bucket: seq<int>, limit: int, period: int, now: int): Answer {
    var kept := Trim(bucket, now - Seconds(period));
    if |kept| < limit then Allowed
    else if kept == [] then IndexError
    else Rejected(RetryAfter(kept[0], now, period))
  }

  // ----- reference: the whole history of allowed calls

  /** How many of the instants lie in (from, to]. */
  function CountIn(times: seq<int>, from: int, to: int): nat {
    if times == [] then 0 else
    CountIn(times[..|times| - 1], from, to) + if from < times[|times| - 1] <= to then 1 else 0
  }

  predicate Sorted(times: seq<int>) { forall i, j | 0 <= i <= j < |times| :: times[i] <= times[j] }

  lemma SortedAppend(times: seq<int>, t: int)
    requires Sorted(times) && forall i | 0 <= i < |times| :: times[i] <= t
    ensures Sorted(times + [t])
  {
  }

  /** What is known of one key: every allowed call so far, the last cutoff used, and the bucket, which
      is the history without a prefix that had expired by that cutoff. */
  datatype Ledger = Ledger(history: seq<int>, cutoff: Option<int>, bucket: seq<int>)

  const UNSEEN := Ledger([], None, [])

  predicate Suffix(bucket: seq<int>, history: seq<int>, cutoff: Option<int>) {
    && |bucket| <= |history| && bucket == history[|history| - |bucket|..]
    && forall i | 0 <= i < |history| - |bucket| :: cutoff.Some? && history[i] <= cutoff.value
  }

  predicate Consistent(l: Ledger) { Sorted(l.history) && Suffix(l.bucket, l.history, l.cutoff) }

  lemma {:induction false} TrimIsWindow(bucket: seq<int>, cutoff: int)
    requires Sorted(bucket)
    ensures
      var kept := Trim(bucket, cutoff);
      && |kept| <= |bucket| && kept == bucket[|bucket| - |kept|..]
      && (forall i | 0 <= i < |bucket| - |kept| :: bucket[i] <= cutoff)
      && (forall i | 0 <= i < |kept| :: kept[i] > cutoff)
  {
    if bucket != [] && bucket[0] <= cutoff {
      assert Sorted(bucket[1..]);
      TrimIsWindow(bucket[1..], cutoff);
    }
  }

  /** On a sorted list whose last instant is not after `to`, counting is measuring a suffix. */
  lemma {:induction false} CountIsSuffix(times: seq<int>, n: nat, from: int, to: int)
    requires n <= |times| && (forall i | 0 <= i < |times| :: times[i] <= to)
    requires (forall i | 0 <= i < n :: times[i] <= from) && (forall i | n <= i < |times| :: times[i] > from)
    ensures CountIn(times, from, to) == |times| - n
  {
    if times != [] {
      var init := times[..|times| - 1];
      if n == |times| {
        CountIsSuffix(init, n - 1, from, to);
      } else {
        CountIsSuffix(init, n, from, to);
      }
    }
  }

  lemma SuffixSorted(bucket: seq<int>, history: seq<int>, cutoff: Option<int>)
    requires Sorted(history) && Suffix(bucket, history, cutoff)
    ensures Sorted(bucket)
  {
    var d := |history| - |bucket|;
    forall i, j | 0 <= i <= j < |bucket| ensures bucket[i] <= bucket[j] {
      assert bucket[i] == history[d + i] && bucket[j] == history[d + j];
    }
  }

  lemma TrimCounts(l: Ledger, now: int, cutoff: int)
    requires Consistent(l) && (l.cutoff.Some? ==> l.cutoff.value <= cutoff)
    requires forall i | 0 <= i < |l.history| :: l.history[i] <= now
    ensures |Trim(l.bucket, cutoff)| == CountIn(l.history, cutoff, now)
    ensures Suffix(Trim(l.bucket, cutoff), l.history, Some(cutoff))
  {
    SuffixSorted(l.bucket, l.history, l.cutoff);
    TrimIsWindow(l.bucket, cutoff);
    hide Trim, Sorted;
    var kept := Trim(l.bucket, cutoff);
    TrimmedSuffix(l.history, l.bucket, kept, l.cutoff, cutoff);
    hide Suffix;
    CountIsSuffix(l.history, |l.history| - |kept|, cutoff, now);
  }

  lemma TrimmedSuffix(history: seq<int>, bucket: seq<int>, kept: seq<int>, before: Option<int>, cutoff: int)
    requires Suffix(bucket, history, before) && (before.Some? ==> before.value <= cutoff)
    requires |kept| <= |bucket| && kept == bucket[|bucket| - |kept|..]
    requires (forall i | 0 <= i < |bucket| - |kept| :: bucket[i] <= cutoff)
        && (forall i | 0 <= i < |kept| :: kept[i] > cutoff)
    ensures Suffix(kept, history, Some(cutoff)) && |kept| <= |history|
    ensures forall i | 0 <= i < |history| - |kept| :: history[i] <= cutoff
    ensures forall i | |history| - |kept| <= i < |history| :: history[i] > cutoff
  {
    var n, d := |history| - |kept|, |history| - |bucket|;
    forall i | 0 <= i < n ensures history[i] <= cutoff {
      if i >= d { assert history[i] == bucket[i - d]; }
    }
    forall i | n <= i < |history| ensures history[i] > cutoff {
      assert history[i] == bucket[i - d] == kept[i - n];
    }
    assert kept == history[n..];
  }

  /** One call on a key's ledger. */
  function Step(l: Ledger, limit: int, period: int, now: int): (Answer, Ledger) {
    var cutoff := now - Seconds(period);
    var kept := Trim(l.bucket, cutoff);
    var answer := Decide(l.bucket, limit, period, now);
    if answer == Allowed then (answer, Ledger(l.history + [now], Some(cutoff), kept + [now]))
    else (answer, Ledger(l.history, Some(cutoff), kept))
  }

  /** Time runs forwards for a key: neither the clock nor the start of its window moves back. */
  predicate Forwards(l: Ledger, period: int, now: int) {
    (l.cutoff.Some? ==> l.cutoff.value <= now - Seconds(period))
    && forall i | 0 <= i < |l.history| :: l.history[i] <= now
  }

  /** The bucket's decision is the reference one, and the ledger stays consistent. */
  lemma StepRefines(l: Ledger, limit: int, period: int, now: int)
    requires Consistent(l) && Forwards(l, period, now)
    ensures
      var (answer, after) := Step(l, limit, period, now);
      && (answer == Allowed <==> CountIn(l.history, now - Seconds(period), now) < limit)
      && Consistent(after) && after.history == if answer == Allowed then l.history + [now] else l.history
  {
    hide Sorted, Trim, CountIn, RetryAfter, Seconds, Suffix;
    var cutoff := now - Seconds(period);
    TrimCounts(l, now, cutoff);
    SortedAppend(l.history, now);
    SuffixAppend(Trim(l.bucket, cutoff), l.history, Some(cutoff), now);
  }

  lemma SuffixAppend(bucket: seq<int>, history: seq<int>, cutoff: Option<int>, t: int)
    requires Suffix(bucket, history, cutoff)
    ensures Suffix(bucket + [t], history + [t], cutoff)
  {
    var longer := history + [t];
    var dropped := |history| - |bucket|;
    assert |longer| - |bucket + [t]| == dropped;
    assert longer[dropped..] == history[dropped..] + [t];
    assert forall i | 0 <= i < dropped :: longer[i] == history[i];
  }

  // ----- the limiter

  class SlidingWindowRateLimiter {
    var entries: map<string, seq<int>>
    ghost var ledgers: map<string, Ledger>  // one per key ever seen

    ghost predicate Valid()
      reads this
    {
      && entries.Keys == ledgers.Keys
      && forall k | k in entries :: ledgers[k].bucket == entries[k]
    }

    ghost function LedgerOf(key: string): Ledger
      reads this
    {
      if key in ledgers then ledgers[key] else UNSEEN
    }

    constructor ()
      ensures Valid() && entries == map[]
    {
      entries, ledgers := map[], map[];
    }

    method DropExpired(key: string, cutoff: int) returns (bucket: seq<int>)
      ensures bucket == Trim(if key in entries then entries[key] else [], cutoff)
    {
      bucket := if key in entries then entries[key] else [];
      while bucket != [] && bucket[0] <= cutoff
        invariant Trim(bucket, cutoff) == Trim(if key in entries then entries[key] else [], cutoff)
        decreases |bucket|
      {
        bucket := bucket[1..];
      }
    }

    /** Any clock, limit and period will do; while time runs forwards for the key the answer is the
        reference one. */
    method Allow(key: string, limit: int, period: int, now: int) returns (answer: Answer)
      requires Valid()
      modifies this
      ensures Valid()
      ensures
        var l := old(LedgerOf(key));
        var (decided, after) := Step(l, limit, period, now);
        && answer == decided && ledgers == old(ledgers)[key := after] && entries == old(entries)[key := after.bucket]
        && (Consistent(l) && Forwards(l, period, now) ==>
              Consistent(after) && (answer == Allowed <==> CountIn(l.history, now - Seconds(period), now) < limit))
    {
      hide Consistent, CountIn, RetryAfter, Trim, Forwards;
      ghost var l := LedgerOf(key);
      var bucket := DropExpired(key, now - Seconds(period));
      if |bucket| >= limit {
        answer := if bucket == [] then IndexError else Rejected(RetryAfter(bucket[0], now, period));
      } else {
        answer := Allowed;
        bucket := bucket + [now];
      }
      entries := entries[key := bucket];
      ledgers := ledgers[key := Step(l, limit, period, now).1];
      if Consistent(l) && Forwards(l, period, now) {
        StepRefines(l, limit, period, now);
      }
    }

    method Reset()
      modifies this
      ensures Valid() && entries == map[]
    {
      entries, ledgers := map[], map[];
    }
  }

  // ----- what follows for the calls

  /** A rejected call is told to wait between one second and the whole period, and less than a second
      short of the moment the oldest entry of the window expires. */
  lemma RetryBounds(bucket: seq<int>, limit: int, period: int, now: int)
    requires Sorted(bucket) && (forall i | 0 <= i < |bucket| :: bucket[i] <= now) && period >= 1
    requires Decide(bucket, limit, period, now).Rejected?
    ensures
      var wait := Decide(bucket, limit, period, now).retryAfter;
      var head := Trim(bucket, now - Seconds(period))[0];
      && 1 <= wait <= period
      && Seconds(wait) > (head + Seconds(period) - now) - Seconds(1)
  {
    var kept := Trim(bucket, now - Seconds(period));
    TrimIsWindow(bucket, now - Seconds(period));
    assert kept[0] == bucket[|bucket| - |kept|];
  }

  /** In a bucket in order and not ahead of the clock a call is allowed iff the window holds fewer than the limit;
      it raises iff the window is empty although the limit is not above it, and is rejected otherwise. */
  lemma OutcomeIff(bucket: seq<int>, limit: int, period: int, now: int)
    requires Sorted(bucket) && forall i | 0 <= i < |bucket| :: bucket[i] <= now
    ensures
      var inWindow := CountIn(bucket, now - 1_000_000 * period, now);
      && (Decide(bucket, limit, period, now) == Allowed <==> inWindow < limit)
      && (Decide(bucket, limit, period, now) == IndexError <==> inWindow == 0 && limit <= 0)
      && (Decide(bucket, limit, period, now).Rejected? <==> inWindow > 0 && limit <= inWindow)
  {
    var cutoff := now - Seconds(period);
    TrimIsWindow(bucket, cutoff);
    hide Trim, Sorted;
    var n := |bucket| - |Trim(bucket, cutoff)|;
    forall i | n <= i < |bucket| ensures bucket[i] > cutoff {
      assert bucket[i] == Trim(bucket, cutoff)[i - n];
    }
    CountIsSuffix(bucket, n, cutoff, now);
  }

  lemma {:induction false} CountMonotone(times: seq<int>, from: int, to: int, from': int, to': int)
    requires from' <= from && to <= to'
    ensures CountIn(times, from, to) <= CountIn(times, from', to')
  {
    if times != [] {
      CountMonotone(times[..|times| - 1], from, to, from', to');
    }
  }

  lemma {:induction false} CountCapped(times: seq<int>, from: int, to: int, to': int)
    requires forall i | 0 <= i < |times| :: times[i] <= to'
    ensures CountIn(times, from, to) <= CountIn(times, from, to')
  {
    if times != [] {
      CountCapped(times[..|times| - 1], from, to, to');
    }
  }

  /** One more allowed call does not overfill a window it falls into. */
  lemma AllowedFits(h: seq<int>, limit: nat, period: int, now: int, t: int)
    requires (forall i | 0 <= i < |h| :: h[i] <= now) && CountIn(h, now - period, now) < limit
    requires CountIn(h, t - period, t) <= limit
    ensures CountIn(h + [now], t - period, t) <= limit
  {
    assert (h + [now])[..|h + [now]| - 1] == h;
    if t - period < now <= t {
      CountCapped(h, t - period, t, now);
      CountMonotone(h, t - period, now, now - period, now);
    }
  }

  /** What a run of calls up to `last` under a fixed limit and period keeps: every call allowed so far
      lies in the past, and no window ending at `t` is overfull. */
  predicate WithinLimit(l: Ledger, limit: nat, period: int, last: int, t: int) {
    && Consistent(l) && (l.cutoff.Some? ==> l.cutoff.value <= last - Seconds(period))
    && (forall i | 0 <= i < |l.history| :: l.history[i] <= last)
    && CountIn(l.history, t - Seconds(period), t) <= limit
  }

  lemma StepKeepsLimit(l: Ledger, limit: nat, period: int, last: int, now: int, t: int)
    requires WithinLimit(l, limit, period, last, t) && last <= now
    ensures WithinLimit(Step(l, limit, period, now).1, limit, period, now, t)
  {
    hide Consistent, CountIn, Decide, Trim, Seconds;
    assert Forwards(l, period, now);
    StepRefines(l, limit, period, now);
    if Step(l, limit, period, now).0 == Allowed {
      AllowedFits(l.history, limit, Seconds(period), now, t);
    }
  }

  /** One call on a key. */
  datatype Call = Call(limit: int, period: int, now: int)

  /** The ledger of a key after a run of calls. */
  function LedgerAfter(calls: seq<Call>): Ledger {
    if calls == [] then UNSEEN else
    var last := calls[|calls| - 1];
    Step(LedgerAfter(calls[..|calls| - 1]), last.limit, last.period, last.now).1
  }

  /** The clock never runs backwards. */
  predicate ClockForwards(calls: seq<Call>) { forall i, j | 0 <= i <= j < |calls| :: calls[i].now <= calls[j].now }

  lemma ClockInit(calls: seq<Call>)
    requires ClockForwards(calls) && calls != []
    ensures ClockForwards(calls[..|calls| - 1])
    ensures |calls| > 1 ==> calls[|calls| - 2].now <= calls[|calls| - 1].now
  {
  }

  predicate Fixed(calls: seq<Call>, limit: int, period: int) {
    forall c | c in calls :: c.limit == limit && c.period == period
  }

  /** With a clock that never runs backwards, no window of one period, wherever it ends, ever contains
      more than `limit` allowed calls. */
  lemma {:induction false} NoWindowExceeds(calls: seq<Call>, limit: nat, period: int, t: int)
    requires ClockForwards(calls) && Fixed(calls, limit, period)
    ensures CountIn(LedgerAfter(calls).history, t - Seconds(period), t) <= limit
    ensures calls != [] ==> WithinLimit(LedgerAfter(calls), limit, period, calls[|calls| - 1].now, t)
  {
    if calls != [] {
      var init, last := calls[..|calls| - 1], calls[|calls| - 1];
      ClockInit(calls);
      assert last in calls && forall c | c in init :: c in calls;
      UnseenWithin(limit, period, last.now, t);
      NoWindowExceeds(init, limit, period, t);
      hide ClockForwards, Fixed, Step, WithinLimit;
      StepKeepsLimit(LedgerAfter(init), limit, period, if init == [] then last.now else calls[|calls| - 2].now,
          last.now, t);
      WithinNow(LedgerAfter(calls), limit, period, last.now, t);
    }
  }

  lemma UnseenWithin(limit: nat, period: int, last: int, t: int)
    ensures WithinLimit(UNSEEN, limit, period, last, t) && CountIn(UNSEEN.history, t - Seconds(period), t) <= limit
  {
  }

  lemma WithinNow(l: Ledger, limit: nat, period: int, last: int, t: int)
    requires WithinLimit(l, limit, period, last, t)
    ensures CountIn(l.history, t - Seconds(period), t) <= limit
  {
  }

  // ----- when periods change between calls

  /** The bucket's decision on one more call is that of counting all calls allowed so far. */
  predicate Agrees(l: Ledger, c: Call) {
    Decide(l.bucket, c.limit, c.period, c.now) == Allowed
    <==> CountIn(l.history, c.now - Seconds(c.period), c.now) < c.limit
  }

  predicate AgreesThroughout(calls: seq<Call>) {
    forall i | 0 <= i < |calls| :: Agrees(LedgerAfter(calls[..i]), calls[i])
  }

  predicate PeriodsNeverGrow(calls: seq<Call>) {
    forall i, j | 0 <= i <= j < |calls| :: calls[j].period <= calls[i].period
  }

  lemma AgreesInit(calls: seq<Call>)
    requires calls != []
    ensures
      var init := calls[..|calls| - 1];
      AgreesThroughout(calls) <==> AgreesThroughout(init) && Agrees(LedgerAfter(init), calls[|calls| - 1])
  {
    hide Agrees, LedgerAfter;
    var init := calls[..|calls| - 1];
    assert forall i | 0 <= i < |init| :: init[..i] == calls[..i] && init[i] == calls[i];
    assert calls[..|calls| - 1] == init;
  }

  /** A key's ledger right after a call. */
  predicate Past(l: Ledger, c: Call) {
    && Consistent(l) && (forall i | 0 <= i < |l.history| :: l.history[i] <= c.now)
    && (l.cutoff.Some? ==> l.cutoff.value == c.now - Seconds(c.period))
  }

  lemma NeverGrowingStep(l: Ledger, before: Call, c: Call)
    requires l == UNSEEN || (Past(l, before) && before.now <= c.now && c.period <= before.period)
    ensures Agrees(l, c) && Past(Step(l, c.limit, c.period, c.now).1, c)
  {
    hide Sorted, CountIn, Trim, Suffix;
    assert Consistent(l) by { if l == UNSEEN { UnseenConsistent(); } }
    StepRefines(l, c.limit, c.period, c.now);
  }

  lemma UnseenConsistent()
    ensures Consistent(UNSEEN)
  {
  }

  /** Whatever the limits, calls whose periods never grow are decided by the reference. */
  lemma {:induction false} NeverGrowingAgrees(calls: seq<Call>)
    requires ClockForwards(calls) && PeriodsNeverGrow(calls)
    ensures AgreesThroughout(calls)
    ensures calls != [] ==> Past(LedgerAfter(calls), calls[|calls| - 1])
  {
    if calls != [] {
      var init, last := calls[..|calls| - 1], calls[|calls| - 1];
      ClockInit(calls);
      NeverGrowingAgrees(init);
      AgreesInit(calls);
      assert init != [] ==> last.period <= calls[|calls| - 2].period;
      hide AgreesThroughout, ClockForwards, PeriodsNeverGrow, Past, Step, Agrees;
      NeverGrowingStep(LedgerAfter(init), if init == [] then last else init[|init| - 1], last);
    }
  }

  /** A bucket that cannot lose the last allowed call. */
  predicate HoldsLast(l: Ledger, last: int) {
    && Sorted(l.history) && (forall i | 0 <= i < |l.history| :: l.history[i] <= last)
    && l.bucket == if l.history == [] then [] else [l.history[|l.history| - 1]]
  }

  /** Some call lies in a window that ends now iff the last one does. */
  lemma CountLast(times: seq<int>, from: int, now: int)
    requires Sorted(times) && times != [] && times[|times| - 1] <= now
    ensures CountIn(times, from, now) >= 1 <==> times[|times| - 1] > from
  {
    if times[|times| - 1] <= from {
      CountIsSuffix(times, |times|, from, now);
    }
  }

  lemma LastDecides(l: Ledger, c: Call, last: int)
    requires HoldsLast(l, last) && last <= c.now && c.limit <= 1
    requires c.limit <= 0 ==> l.history == []
    ensures Agrees(l, c) && HoldsLast(Step(l, c.limit, c.period, c.now).1, c.now)
    ensures c.limit <= 0 ==> Step(l, c.limit, c.period, c.now).1.history == []
  {
    var h, from := l.history, c.now - Seconds(c.period);
    NothingCounted(from, c.now);
    if h != [] {
      CountLast(h, from, c.now);
      TrimOne(h[|h| - 1], from);
    } else {
      assert Trim([], from) == [];
    }
    SortedAppend(h, c.now);
    hide CountIn, Sorted, Trim, Seconds, RetryAfter;
    assert [] + [c.now] == [c.now];
  }

  lemma TrimOne(t: int, cutoff: int)
    ensures Trim([t], cutoff) == if t <= cutoff then [] else [t]
  {
    assert [t][1..] == [] && Trim([], cutoff) == [];
  }

  lemma NothingCounted(from: int, to: int)
    ensures CountIn([], from, to) == 0
  {
  }

  /** With a fixed limit of at most one, so are calls under any periods. */
  lemma {:induction false} LimitOneAgrees(calls: seq<Call>, limit: int)
    requires ClockForwards(calls) && limit <= 1 && forall c | c in calls :: c.limit == limit
    ensures AgreesThroughout(calls)
    ensures HoldsLast(LedgerAfter(calls), if calls == [] then 0 else calls[|calls| - 1].now)
    ensures limit <= 0 ==> LedgerAfter(calls).history == []
  {
    if calls != [] {
      var init, last := calls[..|calls| - 1], calls[|calls| - 1];
      ClockInit(calls);
      assert last in calls && forall c | c in init :: c in calls;
      LimitOneAgrees(init, limit);
      AgreesInit(calls);
      var l := LedgerAfter(init);
      assert init == [] ==> HoldsLast(l, last.now);
      hide Agrees, Step, ClockForwards, HoldsLast, AgreesThroughout;
      LastDecides(l, last, if init == [] then last.now else calls[|calls| - 2].now);
    }
  }

  /** Calls that fill a short window at time zero, then one call just after it closes. */
  function Filling(n: nat, limit: int, period: int): (calls: seq<Call>)
    ensures |calls| == n && forall c | c in calls :: c == Call(limit, period, 0)
  {
    if n == 0 then [] else Filling(n - 1, limit, period) + [Call(limit, period, 0)]
  }

  predicate Zeros(times: seq<int>) { forall i | 0 <= i < |times| :: times[i] == 0 }

  lemma {:induction false} Filled(n: nat, limit: int, period: nat)
    requires n <= limit
    ensures
      var l := LedgerAfter(Filling(n, limit, period));
      |l.history| == n && Zeros(l.history) && |l.bucket| <= n && Zeros(l.bucket)
  {
    if n > 0 {
      Filled(n - 1, limit, period);
      var calls, before := Filling(n, limit, period), LedgerAfter(Filling(n - 1, limit, period));
      assert calls[..n - 1] == Filling(n - 1, limit, period) && calls[n - 1] == Call(limit, period, 0);
      assert LedgerAfter(calls) == Step(before, limit, period, 0).1;
      hide Filling, LedgerAfter, Step;
      FilledStep(before, n, limit, period);
    }
  }

  lemma FilledStep(l: Ledger, n: nat, limit: int, period: nat)
    requires 0 < n <= limit && |l.history| == n - 1 && Zeros(l.history) && |l.bucket| < n && Zeros(l.bucket)
    ensures
      var after := Step(l, limit, period, 0).1;
      |after.history| == n && Zeros(after.history) && |after.bucket| <= n && Zeros(after.bucket)
  {
    ZerosTrimmed(l.bucket, -Seconds(period));
    hide Trim;
  }

  lemma {:induction false} ZerosTrimmed(bucket: seq<int>, cutoff: int)
    requires Zeros(bucket)
    ensures Trim(bucket, cutoff) == if cutoff >= 0 then [] else bucket
  {
    if bucket != [] && cutoff >= 0 {
      ZerosTrimmed(bucket[1..], cutoff);
    }
  }

  /** A run from the start that a growing period makes forget: a limit's worth of calls in a window of
      `period` seconds, one call when they have just expired, one more under a longer period. */
  function Forgetting(limit: nat, period: nat, longer: nat): (calls: seq<Call>)
    ensures |calls| == limit + 2
  {
    Filling(limit, limit, period) + [Call(limit, period, Seconds(period)), Call(limit, longer, Seconds(period))]
  }

  lemma {:induction false} CountZeros(times: seq<int>, from: int, to: int)
    requires from < 0 <= to && Zeros(times)
    ensures CountIn(times, from, to) == |times|
  {
    if times != [] {
      CountZeros(times[..|times| - 1], from, to);
    }
  }

  /** For every limit from two on and every growing period some run is let through although the longer
      window is full. */
  lemma GrowingPeriodForgets(limit: nat, period: nat, longer: nat)
    requires limit >= 2 && period < longer
    ensures
      var calls := Forgetting(limit, period, longer);
      var l, last := LedgerAfter(calls[..limit + 1]), calls[limit + 1];
      && ClockForwards(calls) && Under(calls, limit, {period, longer})
      && Decide(l.bucket, last.limit, last.period, last.now) == Allowed
      && CountIn(l.history, last.now - Seconds(last.period), last.now) == limit + 1
      && !AgreesThroughout(calls)
  {
    var calls, now := Forgetting(limit, period, longer), Seconds(period);
    ForgettingRuns(limit, period, longer);
    Forgotten(limit, period, longer);
    hide Forgetting, Decide, CountIn, LedgerAfter;
    assert !Agrees(LedgerAfter(calls[..limit + 1]), calls[limit + 1]);
  }

  lemma ForgettingRuns(limit: nat, period: nat, longer: nat)
    ensures
      var calls, now := Forgetting(limit, period, longer), Seconds(period);
      && ClockForwards(calls) && Under(calls, limit, {period, longer})
      && calls[..limit + 1] == Filling(limit, limit, period) + [Call(limit, period, now)]
      && calls[limit + 1] == Call(limit, longer, now)
  {
    var calls, full := Forgetting(limit, period, longer), Filling(limit, limit, period);
    assert forall i | 0 <= i < limit :: calls[i] == full[i] && full[i] in full;
  }

  /** The bucket holds one call of the limit and one more that the longer window holds. */
  lemma Forgotten(limit: nat, period: nat, longer: nat)
    requires limit >= 2 && period < longer
    ensures
      var now := Seconds(period);
      var l := LedgerAfter(Filling(limit, limit, period) + [Call(limit, period, now)]);
      Decide(l.bucket, limit, longer, now) == Allowed && CountIn(l.history, now - Seconds(longer), now) == limit + 1
  {
    var now, full := Seconds(period), Filling(limit, limit, period);
    var one, l := full + [Call(limit, period, now)], LedgerAfter(full);
    Filled(limit, limit, period);
    assert one[..limit] == full && one[limit] == Call(limit, period, now);
    ZerosTrimmed(l.bucket, 0);
    var after := LedgerAfter(one);
    assert after == Ledger(l.history + [now], Some(0), [now]);
    hide LedgerAfter, Filling, Step;
    assert after.history[..limit] == l.history;
    CountZeros(l.history, now - Seconds(longer), now);
  }

  predicate Under(calls: seq<Call>, limit: int, periods: set<nat>) {
    forall c | c in calls :: c.limit == limit && c.period in periods
  }

  /** Every run under a limit and some periods, its clock running forwards. */
  ghost predicate AlwaysAgrees(limit: int, periods: set<nat>) {
    forall calls | ClockForwards(calls) && Under(calls, limit, periods) :: AgreesThroughout(calls)
  }

  /** The limiter counts right in every run iff its limit is at most one or its period never changes. */
  lemma AlwaysAgreesIff(limit: int, periods: set<nat>)
    ensures AlwaysAgrees(limit, periods) <==> limit <= 1 || forall p, q | p in periods && q in periods :: p == q
  {
    hide ClockForwards, Under, AgreesThroughout;
    if limit <= 1 || forall p, q | p in periods && q in periods :: p == q {
      forall calls | ClockForwards(calls) && Under(calls, limit, periods)
        ensures AgreesThroughout(calls)
      {
        RunAgrees(calls, limit, periods);
      }
    } else {
      var p, q :| p in periods && q in periods && p != q;
      SomeRunForgets(limit, periods, if p < q then p else q, if p < q then q else p);
    }
  }

  lemma RunAgrees(calls: seq<Call>, limit: int, periods: set<nat>)
    requires ClockForwards(calls) && Under(calls, limit, periods)
    requires limit <= 1 || forall p, q | p in periods && q in periods :: p == q
    ensures AgreesThroughout(calls)
  {
    hide ClockForwards, AgreesThroughout;
    if limit <= 1 {
      LimitOneAgrees(calls, limit);
    } else {
      assert forall i | 0 <= i < |calls| :: calls[i] in calls;
      NeverGrowingAgrees(calls);
    }
  }

  lemma SomeRunForgets(limit: nat, periods: set<nat>, period: nat, longer: nat)
    requires limit >= 2 && period < longer && period in periods && longer in periods
    ensures exists calls :: ClockForwards(calls) && Under(calls, limit, periods) && !AgreesThroughout(calls)
  {
    hide ClockForwards, AgreesThroughout, Forgetting;
    GrowingPeriodForgets(limit, period, longer);
    assert Under(Forgetting(limit, period, longer), limit, periods);
  }
}
