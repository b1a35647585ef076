/** The first poll after a restart: what it does to the anchor over a gap of any length, when
    the counter ran on and when it was reset, with the rate already trusted or not. */
module UptimeGap {
  import opened Options
  import opened Uptime
  import opened UptimeReadings

  /** A latch as a restart leaves it: an anchor and a stored pair. */
  ghost predicate Resumed(l: Latch) {
    !l.pauses && !l.reconciled && l.lastCounter.None? && l.boot.Some? && l.storedCounter.Some?
        && l.storedWrittenAt.Some?
  }

  /** The counter fell short of what it should read after the gap. */
  ghost predicate FellShort(l: Latch, seconds: int, now: real)
    requires Resumed(l)
  {
    var gap := now - l.storedWrittenAt.value;
    seconds as real < l.storedCounter.value as real + gap * (1.0 - RateOf(l)) - ShortfallMargin(gap)
  }

  lemma JudgedOverGap(l: Latch, seconds: int, now: real)
    requires Resumed(l) && now >= l.storedWrittenAt.value
    ensures Judged(l, seconds,
            now) == (if FellShort(l, seconds, now) then Relatched(l, seconds, now) else l).(reconciled := true)
  {
    hide ShortfallMargin, DerivedBoot, DriftRate;
    assert Sampled(l, seconds, now) == l;
  }

  /** The whole first poll comes down to two tests, the second made only at a trusted rate, and
      both put the anchor at the same truncated instant. */
  lemma {:induction false} GapDecision(l: Latch, raw: Option<real>, now: real)
    requires Resumed(l) && Accepted(raw, now) && now >= l.storedWrittenAt.value
    ensures var seconds := Truncate(raw.value);
            Poll(l, raw, now).boot ==
            if FellShort(l, seconds, now) || CheckActs(l, seconds, now)
            then Some(Whole(now - seconds as real / (1.0 - RateOf(l))))
            else l.boot
  {
    var seconds := Truncate(raw.value);
    JudgedOverGap(l, seconds, now);
    var judged := Judged(l, seconds, now);
    assert DriftRate(judged) == DriftRate(l);
    PlausibilityMovesExactlyWhenBehind(judged, seconds, now);
    hide FellShort, Floorline, Judged, PlausibilityStep, DriftRate, ShortfallMargin, Whole, DerivedBoot;
    assert DerivedBoot(judged, seconds, now) == DerivedBoot(l, seconds, now);
    assert Poll(l, raw, now).boot == PlausibilityStep(judged, seconds, now).boot;
  }

  /** Before a rate is trusted the anchor is kept exactly when the counter gained the whole gap,
      less the margin. */
  lemma {:induction false} UntrustedGapDecision(l: Latch, raw: Option<real>, now: real)
    requires Resumed(l) && DriftRate(l).None? && Accepted(raw, now) && now >= l.storedWrittenAt.value
    ensures var seconds, gap := Truncate(raw.value), now - l.storedWrittenAt.value;
            Poll(l, raw, now).boot ==
            if seconds as real < l.storedCounter.value as real + gap - ShortfallMargin(gap)
            then Some(Whole(now - seconds as real)) else l.boot
  {
    GapDecision(l, raw, now);
  }

  /** The counter kept ticking at the rate gone by, read in whole seconds. */
  ghost predicate KeptTicking(l: Latch, seconds: int, now: real)
    requires Resumed(l)
  {
    var gap := now - l.storedWrittenAt.value;
    gap >= 0.0 && seconds as real > l.storedCounter.value as real + (1.0 - RateOf(l)) * gap - 1.0
  }

  /** Such a counter never fell short, so only the check can move its anchor. */
  lemma {:induction false} KeptTickingDecision(l: Latch, raw: Option<real>, now: real)
    requires Resumed(l) && Accepted(raw, now) && KeptTicking(l, Truncate(raw.value), now)
    ensures var seconds := Truncate(raw.value);
            Poll(l, raw, now).boot ==
            if CheckActs(l, seconds, now) then Some(Whole(now - seconds as real / (1.0 - RateOf(l)))) else l.boot
  {
    hide Poll, CheckActs, RateOf, FellShort;
    TickingIsNotShort(l, Truncate(raw.value), now);
    GapDecision(l, raw, now);
  }

  lemma TickingIsNotShort(l: Latch, seconds: int, now: real)
    requires Resumed(l) && KeptTicking(l, seconds, now)
    ensures !FellShort(l, seconds, now)
  {
    hide RateOf;
  }

  /** The stored pair was plausible for the anchor, at a trusted rate, and the gap is long enough
      for the second lost to whole-second reading, or none was lost. */
  ghost predicate Credible(l: Latch, seconds: int, now: real)
    requires Resumed(l)
  {
    var gap := now - l.storedWrittenAt.value;
    DriftRate(l).Some? ==>
      && l.storedCounter.value as real >= Floorline(RateOf(l), l.storedWrittenAt.value - l.boot.value)
      && (gap >= 20.0 || seconds as real >= l.storedCounter.value as real + (1.0 - RateOf(l)) * gap)
  }

  lemma TickingArithmetic(stored: real, s: real, d: real, gap: real, before: real)
    requires gap >= 0.0 && stored >= (d - PLAUSIBILITY_TOLERANCE) * before
    requires s > stored + d * gap - 1.0 && (gap >= 20.0 || s >= stored + d * gap)
    ensures s >= stored + gap * d - ShortfallMargin(gap)
    ensures s >= (d - PLAUSIBILITY_TOLERANCE) * (before + gap)
  {
    assert (d - PLAUSIBILITY_TOLERANCE) * (before + gap)
        == (d - PLAUSIBILITY_TOLERANCE) * before + d * gap - PLAUSIBILITY_TOLERANCE * gap;
  }

  lemma CredibleIsNotBehind(l: Latch, seconds: int, now: real)
    requires Resumed(l) && KeptTicking(l, seconds, now) && Credible(l, seconds, now)
    ensures !CheckActs(l, seconds, now)
  {
    if DriftRate(l).Some? {
      var gap, before := now - l.storedWrittenAt.value, l.storedWrittenAt.value - l.boot.value;
      TickingArithmetic(l.storedCounter.value as real, seconds as real, 1.0 - RateOf(l), gap, before);
      assert before + gap == now - l.boot.value;
    }
  }

  /** Then an anchor that was credible when the pair was stored is kept, however long the gap. */
  lemma {:induction false} KeptTickingRetains(l: Latch, raw: Option<real>, now: real)
    requires Resumed(l) && Accepted(raw, now) && KeptTicking(l, Truncate(raw.value), now)
    requires Credible(l, Truncate(raw.value), now)
    ensures Poll(l, raw, now).boot == l.boot
  {
    hide Poll, Resumed, KeptTicking, Credible, CheckActs;
    KeptTickingDecision(l, raw, now);
    CredibleIsNotBehind(l, Truncate(raw.value), now);
  }

  lemma CheckedAnchorIsCredible(l: Latch, seconds: int, now: real)
    requires seconds >= 28 && DriftRate(l).Some?
    ensures var checked := PlausibilityStep(l, seconds, now);
            checked.boot.Some? && checked.boot.value < now ==>
              seconds as real >= Floorline(DriftRate(l).value, now - checked.boot.value)
  {
    PlausibilityMovesExactlyWhenBehind(l, seconds, now);
    DerivedIsCredible(seconds, now, 1.0 - DriftRate(l).value);
  }

  /** What the stored pair needs holds after every poll once the counter has passed half a minute. */
  lemma {:induction false} PolledAnchorIsCredible(l: Latch, raw: Option<real>, now: real)
    requires Accepted(raw, now) && Truncate(raw.value) >= 28 && DriftRate(Poll(l, raw, now)).Some?
    ensures var after := Poll(l, raw, now);
            after.boot.Some? && after.boot.value < now ==>
              Truncate(raw.value) as real >= Floorline(DriftRate(after).value, now - after.boot.value)
  {
    var seconds := Truncate(raw.value);
    var judged := Judged(l, seconds, now);
    var after := Poll(l, raw, now);
    assert after.boot == PlausibilityStep(judged, seconds, now).boot;
    assert after.sumWall == judged.sumWall && after.sumCounter == judged.sumCounter && after.pauses == judged.pauses;
    CheckedAnchorIsCredible(judged, seconds, now);
  }

  lemma DerivedIsCredible(seconds: int, now: real, d: real)
    requires seconds >= 28 && 0.8 <= d <= 1.2
    ensures seconds as real >= (d - PLAUSIBILITY_TOLERANCE) * (now - Whole(now - seconds as real / d))
  {
    var s := seconds as real;
    var back := s / d;
    assert back * d == s;
    var e, low := now - Whole(now - back), d - PLAUSIBILITY_TOLERANCE;
    ScaleUp(d, 1.2, back);
    calc {
      low * e;
    <= { ScaleUp(e, back + 1.0, low); }
      low * (back + 1.0);
      back * d - PLAUSIBILITY_TOLERANCE * back + low;
    <=
      s;
    }
  }

  /** The stored block is one a poll wrote for the anchor kept with it. */
  ghost predicate SavedCredibly(l: Latch) {
    l.saved.Some? && l.saved.value.counter.Some? && l.saved.value.writtenAt.Some? && l.entryBoot.Some? &&
    var resumed := Restarted(l);
    DriftRate(resumed).Some? ==>
      l.saved.value.counter.value as real
      >= Floorline(DriftRate(resumed).value, l.saved.value.writtenAt.value - l.entryBoot.value)
  }

  /** Every poll keeps it so, whether or not it stores its own pair; one that does needs half a
      minute on the counter. */
  lemma {:induction false} PollSavesCredibly(l: Latch, raw: Option<real>, now: real)
    requires !l.pauses && l.entryBoot == l.boot && SavedCredibly(l)
    requires Accepted(raw, now) && (Poll(l, raw, now).saved != l.saved || Poll(l, raw, now).boot != l.boot) ==>
               Truncate(raw.value) >= 28
    ensures SavedCredibly(Poll(l, raw, now))
  {
    assert l.boot.Some?;
    hide Poll, SavedCredibly, Floorline, DriftRate;
    AnchorIsPersisted(l, Reading(raw, now));
    var after := Poll(l, raw, now);
    assert Step(l, Reading(raw, now)) == after;
    PollStoresOrKeeps(l, raw, now);
    if after.saved == l.saved && after.boot == l.boot {
      SameSave(l, after);
    } else {
      if DriftRate(after).Some? { PolledAnchorIsCredible(l, raw, now); }
      StoredIsCredible(after, Truncate(raw.value), now);
    }
  }

  lemma SameSave(l: Latch, m: Latch)
    requires SavedCredibly(l) && m.saved == l.saved && m.entryBoot == l.entryBoot && m.pauses == l.pauses
    ensures SavedCredibly(m)
  {
    hide Floorline, DriftRate;
  }

  lemma StoredIsCredible(l: Latch, seconds: int, now: real)
    requires seconds >= 0 && !l.pauses && l.boot.Some? && l.entryBoot == l.boot
    requires l.saved == Some(Stored(l, seconds, now))
    requires DriftRate(l).Some? && l.boot.value < now ==>
               seconds as real >= Floorline(DriftRate(l).value, now - l.boot.value)
    ensures SavedCredibly(l)
  {
    assert DriftRate(Restarted(l)) == DriftRate(l);
    hide Floorline;
    if DriftRate(l).Some? && l.boot.value >= now { NoTimeNoFloor(DriftRate(l).value, now - l.boot.value); }
  }

  lemma NoTimeNoFloor(rate: real, elapsed: real)
    requires -MAX_DRIFT <= rate <= MAX_DRIFT && elapsed <= 0.0
    ensures Floorline(rate, elapsed) <= 0.0
  {
  }

  /** The block a poll stores. */
  function Stored(l: Latch, seconds: int, now: real): Record {
    Record(Some(seconds), Some(now), l.sumWall, l.sumCounter, l.intervals, l.rateMin, l.rateMax)
  }

  /** A poll that moves the anchor stores its pair, with the sums as they are then. */
  lemma PollStoresOrKeeps(l: Latch, raw: Option<real>, now: real)
    requires l.boot.Some?
    ensures var after := Poll(l, raw, now);
            && after.boot.Some? && after.pauses == l.pauses
            && ((after.saved == l.saved && after.boot == l.boot)
                || (Accepted(raw, now) && after.saved == Some(Stored(after, Truncate(raw.value), now))))
  {
    if !Accepted(raw, now) { return; }
    var seconds := Truncate(raw.value);
    SampledKeepsTheRest(l, seconds, now);
    hide DriftRate, DerivedBoot, ExpectedAfterGap, ColdStartImplausible, Whole, Sampled;
    var judged := Judged(l, seconds, now);
    var stored := Some(Stored(judged, seconds, now));
    assert judged.boot.Some? && judged.pauses == l.pauses;
    assert (judged.saved == l.saved && judged.boot == l.boot) || judged.saved == stored;
    var checked := PlausibilityStep(judged, seconds, now);
    assert checked == judged || checked.saved == stored;
  }

  lemma RestartedIsCredible(l: Latch, seconds: int, now: real)
    requires l.entryBoot == l.boot && !l.pauses && SavedCredibly(l)
    requires var resumed := Restarted(l);
             var gap := now - resumed.storedWrittenAt.value;
             DriftRate(resumed).None? || gap >= 20.0
             || seconds as real >= resumed.storedCounter.value as real + (1.0 - RateOf(resumed)) * gap
    ensures Credible(Restarted(l), seconds, now)
  {
    hide Floorline, DriftRate;
    assert DriftRate(Restarted(l)).Some? ==> RateOf(Restarted(l)) == DriftRate(Restarted(l)).value;
  }

  /** Stop at any point of a run, over any gap: the next process keeps the anchor of a counter
      that kept ticking since the stored pair. */
  lemma {:induction false} RestartOverGap(l: Latch, later: Option<real>, now: real)
    requires l.entryBoot == l.boot && !l.pauses && SavedCredibly(l) && Accepted(later, now)
    requires var resumed := Restarted(l);
             var gap := now - resumed.storedWrittenAt.value;
             && KeptTicking(resumed, Truncate(later.value), now)
             && (DriftRate(resumed).None? || gap >= 20.0
                 || Truncate(later.value) as real
                     >= resumed.storedCounter.value as real + (1.0 - RateOf(resumed)) * gap)
    ensures Poll(Restarted(l), later, now).boot == l.boot
  {
    hide Poll, Floorline, DriftRate, KeptTicking, Credible;
    RestartedIsCredible(l, Truncate(later.value), now);
    KeptTickingRetains(Restarted(l), later, now);
  }

  /** A counter reset at instant `p`, ticking at the learned rate since. */
  ghost predicate ResetAt(l: Latch, p: real, seconds: int, now: real) {
    p <= now && seconds == ((1.0 - RateOf(l)) * (now - p)).Floor
  }

  /** When what the reset cost exceeds the margin the anchor lands on the reset: at most a
      second before it and a second and a quarter after it, and on its very second when the
      counter was read as it ticked. */
  lemma {:induction false} ResetIsDated(l: Latch, p: real, raw: Option<real>, now: real)
    requires Resumed(l) && Accepted(raw, now) && now >= l.storedWrittenAt.value
    requires ResetAt(l, p, Truncate(raw.value), now)
    requires l.storedCounter.value as real + (1.0 - RateOf(l)) * (p - l.storedWrittenAt.value)
             > ShortfallMargin(now - l.storedWrittenAt.value)
    ensures var after := Poll(l, raw, now);
            && after.boot.Some? && p - 1.0 < after.boot.value < p + 1.25
            && (Truncate(raw.value) as real == (1.0 - RateOf(l)) * (now - p) ==> after.boot.value == Whole(p))
  {
    hide Poll;
    ResetFallsShort(l, p, Truncate(raw.value), now);
    ResetInstant(l, p, Truncate(raw.value), now);
    GapDecision(l, raw, now);
  }

  lemma ResetInstant(l: Latch, p: real, seconds: int, now: real)
    requires ResetAt(l, p, seconds, now)
    ensures var d := 1.0 - RateOf(l);
            var anchor := Whole(now - seconds as real / d);
            && p - 1.0 < anchor < p + 1.25
            && (seconds as real == d * (now - p) ==> anchor == Whole(p))
  {
    hide RateOf;
    BackDates(seconds as real, 1.0 - RateOf(l), now - p);
  }

  lemma ResetFallsShort(l: Latch, p: real, seconds: int, now: real)
    requires Resumed(l) && ResetAt(l, p, seconds, now)
    requires l.storedCounter.value as real + (1.0 - RateOf(l)) * (p - l.storedWrittenAt.value)
             > ShortfallMargin(now - l.storedWrittenAt.value)
    ensures FellShort(l, seconds, now)
  {
    SplitGap(1.0 - RateOf(l), l.storedWrittenAt.value, p, now);
  }

  lemma SplitGap(d: real, w: real, p: real, now: real)
    ensures (now - w) * d == d * (p - w) + d * (now - p)
  {
  }

  /** What a counter says it has been running, corrected for its rate, against the truth. */
  lemma BackDates(s: real, d: real, x: real)
    requires 0.8 <= d && d * x - 1.0 < s <= d * x
    ensures x - 1.25 < s / d <= x
    ensures s == d * x ==> s / d == x
  {
    var back := s / d;
    assert back * d == s;
    assert (x - back) * d == d * x - s;
    if x - back >= 1.25 { ScaleUp(0.8, d, x - back); }
  }

  /** Both cases happen: two hours on record, then a day's gap, over which an exact counter ran
      on, or was reset after an hour; the first keeps the anchor and the second moves it. */
  lemma BothCasesHappen() returns (l: Latch, now: real, p: real, ranOn: Option<real>, reset: Option<real>)
    ensures Resumed(l) && Accepted(ranOn, now) && Accepted(reset, now) && now == l.storedWrittenAt.value + 86400.0
    ensures KeptTicking(l, Truncate(ranOn.value), now) && ResetAt(l, p, Truncate(reset.value), now)
    ensures Poll(l, ranOn, now).boot == l.boot && Poll(l, reset, now).boot == Some(Whole(p)) != l.boot
  {
    l := Fresh(false).(boot := Some(CLOCK_FLOOR),
                       storedCounter := Some(7200), storedWrittenAt := Some(CLOCK_FLOOR + 7200.0),
                       sumWall := 3600.0, sumCounter := 3600.0);
    now, p := CLOCK_FLOOR + 93600.0, CLOCK_FLOOR + 10800.0;
    ranOn, reset := Some(93600.0), Some(82800.0);
    assert DriftRate(l) == Some(0.0);
    hide Poll;
    KeptTickingRetains(l, ranOn, now);
    ResetIsDated(l, p, reset, now);
  }
}
