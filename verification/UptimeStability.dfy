/** The anchor of a router that never resets.

    A counter started at `b` that gains `c` seconds per second is read, in whole
    seconds, at any instants in order, with any readings missing or refused between,
    and the process is restarted at any time, over any gaps.  A counter that runs fast moves
    its anchor at most once; one that runs slow or true moves it exactly at the first
    readings after a restart that fall short before a rate is trusted. */
module UptimeStability {
  import opened Options
  import opened Uptime
  import opened UptimeReadings
  import opened UptimeGap

  /** What the counter shows at instant `t`. */
  function Shown(b: real, c: real, t: real): int { (c * (t - b)).Floor }

  /** The instant of the last reading, or `clock` where there was none. */
  function After(clock: real, e: Event): real { if e.Reading? then e.now else clock }

  /** An event of such a run: readings come in order and show the counter or nothing. */
  ghost predicate Believable(b: real, c: real, clock: real, e: Event) {
    e.Reading? ==> e.now >= clock && (e.raw.Some? ==> Truncate(e.raw.value) == Shown(b, c, e.now))
  }

  ghost predicate BelievableRun(b: real, c: real, clock: real, es: seq<Event>)
    decreases |es|
  {
    es == [] || (Believable(b, c, clock, es[0]) && BelievableRun(b, c, After(clock, es[0]), es[1..]))
  }

  /** How often an existing anchor changes. */
  function Moves(l: Latch, es: seq<Event>): nat
    decreases |es|
  {
    if es == [] then 0
    else
      var next := Step(l, es[0]);
      (if l.boot.Some? && next.boot != l.boot then 1 else 0) + Moves(next, es[1..])
  }

  /** The first reading after a restart, judged at the nominal rate, which the counter did not
      keep over the gap by more than the margin. */
  ghost predicate ShortUntrusted(l: Latch, e: Event) {
    && e.Reading? && Accepted(e.raw, e.now) && Resumed(l) && DriftRate(l).None?
    && FellShort(l, Truncate(e.raw.value), e.now)
  }

  ghost function Shortfalls(l: Latch, es: seq<Event>): nat
    decreases |es|
  {
    if es == [] then 0 else (if ShortUntrusted(l, es[0]) then 1 else 0) + Shortfalls(Step(l, es[0]), es[1..])
  }

  // ----- the invariant ----------------------------------------------------------

  /** Accumulators within one part in sixty of the true rate: every interval kept lasts a
      minute and is off by less than a second. */
  ghost predicate Close(c: real, wall: real, counter: real) {
    wall >= 0.0 && -wall / 60.0 <= counter - c * wall <= wall / 60.0
  }

  ghost predicate SoundRecord(r: Record, b: real, c: real, clock: real, anchored: bool) {
    && Close(c, r.sumWall, r.sumCounter)
    && if anchored
       then r.sumWall <= clock - b && StoredOnLine(r.counter, r.writtenAt, b, c, clock)
       else r.sumWall == 0.0 && r.counter.None?
  }

  ghost predicate StoredOnLine(counter: Option<int>, at: Option<real>, b: real, c: real, clock: real) {
    counter.Some? && at.Some? && at.value <= clock && counter.value == Shown(b, c, at.value)
  }

  /** An anchor no later trusted check can find too early. */
  ghost predicate Settled(anchor: real, b: real, clock: real) {
    anchor >= b - 1.0 - (clock - b) / 59.0
  }

  /** An anchor of a counter not fast, against the pair stored at `w`. */
  ghost predicate NotLate(anchor: real, b: real, c: real, w: real) {
    anchor <= w - c * (w - b) + 1.0
  }

  ghost predicate Tracks(l: Latch, b: real, c: real, clock: real, settled: bool) {
    && !l.pauses && 0.8 <= c <= 1.2
    && l.entryBoot == l.boot
    && Close(c, l.sumWall, l.sumCounter)
    && (l.saved.Some? ==> SoundRecord(l.saved.value, b, c, clock, l.boot.Some?))
    && (l.lastCounter.Some? <==> l.lastPollAt.Some?)
    && (l.lastPollAt.Some? ==>
          && b <= l.lastPollAt.value <= clock
          && l.lastCounter.value == Shown(b, c, l.lastPollAt.value)
          && l.sumWall <= l.lastPollAt.value - b)
    && if l.boot.None?
       then l.lastCounter.None? && !l.reconciled && l.storedCounter.None? && l.sumWall == 0.0 && (c <= 1.0 ==> settled)
       else
         && b <= clock && l.sumWall <= clock - b
         && StoredOnLine(l.storedCounter, l.storedWrittenAt, b, c, clock)
         && l.saved.Some? && l.saved.value.counter == l.storedCounter && l.saved.value.writtenAt == l.storedWrittenAt
         && (c <= 1.0 ==> NotLate(l.boot.value, b, c, l.storedWrittenAt.value))
         && (!l.reconciled ==> l.lastCounter.None?)
         && (settled ==> Settled(l.boot.value, b, clock))
  }

  // ----- the counter against the clock ------------------------------------------

  lemma ShownBounds(b: real, c: real, t: real)
    ensures c * (t - b) - 1.0 < Shown(b, c, t) as real <= c * (t - b)
  {
  }

  lemma ShownNotNegative(b: real, c: real, t: real)
    requires c > 0.0 && Shown(b, c, t) >= 0
    ensures t >= b
  {
    ShownBounds(b, c, t);
  }

  lemma ShownMonotone(b: real, c: real, t: real, u: real)
    requires c > 0.0 && t <= u
    ensures Shown(b, c, t) <= Shown(b, c, u)
  {
    ScaleUp(t - b, u - b, c);
    assert c * (t - b) <= c * (u - b);
  }

  /** Two readings differ by the true advance, give or take less than a second. */
  lemma AdvanceClose(b: real, c: real, t: real, u: real)
    ensures -1.0 < (Shown(b, c, u) - Shown(b, c, t)) as real - c * (u - t) < 1.0
  {
    ShownBounds(b, c, t);
    ShownBounds(b, c, u);
    assert c * (u - b) - c * (t - b) == c * (u - t);
  }

  lemma CloseSum(c: real, w: real, n: real, wall: real, advance: real)
    requires Close(c, w, n) && wall >= 60.0 && -1.0 < advance - c * wall < 1.0
    ensures Close(c, w + wall, n + advance)
  {
    assert c * (w + wall) == c * w + c * wall;
  }

  lemma CloseScaled(c: real, w: real, n: real, k: real, w2: real, n2: real)
    requires Close(c, w, n) && k >= 0.0 && w2 == w * k && n2 == n * k
    ensures Close(c, w2, n2)
  {
    var off, off2 := n - c * w, n2 - c * w2;
    assert off2 == off * k by { assert c * w2 == (c * w) * k; }
    assert -w2 / 60.0 == (-w / 60.0) * k && w2 / 60.0 == (w / 60.0) * k;
    ScaleUp(-w / 60.0, off, k);
    ScaleUp(off, w / 60.0, k);
    ScaleUp(0.0, w, k);
  }

  lemma RescaledClose(l: Latch, c: real)
    requires l.sumWall > 0.0 && Close(c, l.sumWall, l.sumCounter)
    ensures var s := Rescaled(l); Close(c, s.sumWall, s.sumCounter) && 0.0 <= s.sumWall <= l.sumWall
  {
    if l.sumWall > DRIFT_ACCUMULATOR_CAP {
      var k := DRIFT_ACCUMULATOR_CAP / l.sumWall;
      var s := Rescaled(l);
      assert s.sumWall == l.sumWall * k && s.sumCounter == l.sumCounter * k;
      CloseScaled(c, l.sumWall, l.sumCounter, k, s.sumWall, s.sumCounter);
      assert l.sumWall * k == DRIFT_ACCUMULATOR_CAP;
    }
  }

  lemma SampledClose(l: Latch, b: real, c: real, clock: real, settled: bool, now: real)
    requires Tracks(l, b, c, clock, settled) && now >= clock
    ensures var s := Sampled(l, Shown(b, c, now), now);
            && Close(c, s.sumWall, s.sumCounter)
            && (l.boot.Some? ==> s.sumWall <= now - b)
            && (l.boot.None? ==> s.sumWall == 0.0)
  {
    var seconds := Shown(b, c, now);
    if SampleUsable(l, seconds, now) {
      var wall, advance := now - l.lastPollAt.value, (seconds - l.lastCounter.value) as real;
      AdvanceClose(b, c, l.lastPollAt.value, now);
      CloseSum(c, l.sumWall, l.sumCounter, wall, advance);
      RescaledClose(Summed(l, wall, advance), c);
    }
  }

  /** A trusted rate is within one part in sixty of the true one. */
  lemma RateClose(l: Latch, c: real)
    requires Close(c, l.sumWall, l.sumCounter) && 0.8 <= c <= 1.2 && DriftRate(l).Some?
    ensures -1.0 / 60.0 <= 1.0 - DriftRate(l).value - c <= 1.0 / 60.0
  {
    var w, n := l.sumWall, l.sumCounter;
    assert (c - 1.0 / 60.0) * w == c * w - w / 60.0;
    assert (c + 1.0 / 60.0) * w == c * w + w / 60.0;
    QuotientWithin(c - 1.0 / 60.0, c + 1.0 / 60.0, w, n);
  }

  // ----- the two judgements never fire on such a counter -------------------------

  /** After an hour the check cannot find a settled anchor too early. */
  lemma SettledIsPlausible(b: real, c: real, t: real, anchor: real, rate: real)
    requires 0.8 <= c <= 1.2 && t - b >= DRIFT_MIN_ACCUMULATED && Settled(anchor, b, t) && anchor < t
    requires -1.0 / 60.0 <= 1.0 - rate - c <= 1.0 / 60.0
    ensures Shown(b, c, t) as real >= Floorline(rate, t - anchor)
  {
    ShownBounds(b, c, t);
    var x := t - b;
    var low := 1.0 - rate - PLAUSIBILITY_TOLERANCE;
    assert 0.0 < low <= c - 1.0 / 30.0;
    var e := t - anchor;
    var most := x + x / 59.0 + 1.0;
    assert e <= most;
    SettledArithmetic(c, x);
    calc {
      Floorline(rate, e);
      low * e;
    <= { ScaleUp(e, most, low); }
      low * most;
    <= { ScaleUp(low, c - 1.0 / 30.0, most); }
      (c - 1.0 / 30.0) * most;
    <=
      c * x - 1.0;
    }
  }

  lemma SettledArithmetic(c: real, x: real)
    requires 0.8 <= c <= 1.2 && x >= 3600.0
    ensures (c - 1.0 / 30.0) * (x + x / 59.0 + 1.0) <= c * x - 1.0
  {
    assert (c - 1.0 / 30.0) * (x + x / 59.0 + 1.0)
        == c * x + c * x / 59.0 + c - (x + x / 59.0 + 1.0) / 30.0;
    ScaleUp(c, 1.2, x);
  }

  /** What a move leaves behind is settled: it is derived at a rate close to the true one. */
  lemma DerivedIsSettled(l: Latch, b: real, c: real, t: real)
    requires 1.0 <= c <= 1.2 && t >= b && DriftRate(l).Some? && Shown(b, c, t) >= 0
    requires -1.0 / 60.0 <= 1.0 - DriftRate(l).value - c <= 1.0 / 60.0
    ensures Settled(Whole(DerivedBoot(l, Shown(b, c, t), t)), b, t)
  {
    hide DriftRate;
    ShownBounds(b, c, t);
    BackWithin(c, 1.0 - DriftRate(l).value, t - b, Shown(b, c, t) as real);
  }

  lemma BackWithin(c: real, d: real, x: real, s: real)
    requires 1.0 <= c && c - 1.0 / 60.0 <= d && x >= 0.0 && s <= c * x
    ensures s / d <= x + x / 59.0
  {
    var most := x + x / 59.0;
    DerivedArithmetic(c, x, most);
    ScaleUp(c - 1.0 / 60.0, d, most);
    var back := s / d;
    assert back * d == s;
    if back > most { ScaleUp(0.0, d, back - most); }
  }

  lemma DerivedArithmetic(c: real, x: real, most: real)
    requires 1.0 <= c && x >= 0.0 && most == x + x / 59.0
    ensures (c - 1.0 / 60.0) * most >= c * x
  {
    assert (c - 1.0 / 60.0) * most == c * x + (c * x) / 59.0 - x / 60.0 - x / 3540.0;
    ScaleUp(1.0, c, x);
  }

  /** The first anchor of a counter that runs slow or true is settled as it is made. */
  lemma FirstAnchorSettled(b: real, c: real, t: real)
    requires c <= 1.0 && t >= b
    ensures Settled(Whole(t - Shown(b, c, t) as real), b, t)
  {
    ShownBounds(b, c, t);
    ScaleUp(c, 1.0, t - b);
  }

  /** Over any gap a counter on the line is not short of what the stored pair expects. */
  lemma NoShortfall(b: real, c: real, w: real, t: real, rate: real)
    requires 0.8 <= c <= 1.2 && w <= t && -1.0 / 60.0 <= 1.0 - rate - c <= 1.0 / 60.0
    ensures Shown(b, c, t) as real
            >= Shown(b, c, w) as real + (t - w) * (1.0 - rate) - ShortfallMargin(t - w)
  {
    AdvanceClose(b, c, w, t);
    MarginCovers(c, rate, t - w);
  }

  lemma MarginCovers(c: real, rate: real, e: real)
    requires e >= 0.0 && 1.0 - rate - c <= 1.0 / 60.0
    ensures e * (1.0 - rate) - ShortfallMargin(e) <= c * e - 1.0
  {
    ScaleUp(1.0 - rate, c + 1.0 / 60.0, e);
    assert (c + 1.0 / 60.0) * e == c * e + e / 60.0;
    assert e / 60.0 + 1.0 <= ShortfallMargin(e);
  }

  // ----- one event ---------------------------------------------------------------

  lemma SnapshotTracks(l: Latch, b: real, c: real, clock: real, settled: bool)
    requires Tracks(l, b, c, clock, settled)
    ensures Tracks(Snapshot(l), b, c, clock, settled)
  {
  }

  lemma RestartTracks(l: Latch, b: real, c: real, clock: real, settled: bool)
    requires Tracks(l, b, c, clock, settled)
    ensures Tracks(Restarted(l), b, c, clock, settled) && Restarted(l).boot == l.boot
  {
  }

  lemma ClockTracks(l: Latch, b: real, c: real, clock: real, settled: bool, now: real)
    requires Tracks(l, b, c, clock, settled) && now >= clock
    ensures Tracks(l, b, c, now, settled)
  {
  }

  lemma RuntimeKeeps(l: Latch, seconds: int, now: real)
    requires l.lastCounter.Some? ==> seconds >= l.lastCounter.value
    ensures RuntimeStep(l, seconds, now) == l
  {
  }

  lemma StartupKeeps(l: Latch, seconds: int, now: real)
    requires !l.pauses && l.storedCounter.Some? && l.storedWrittenAt.Some? && now >= l.storedWrittenAt.value
    requires var gap := now - l.storedWrittenAt.value;
             seconds as real >= ExpectedAfterGap(l, l.storedCounter.value, gap) - ShortfallMargin(gap)
    ensures StartupStep(l, seconds, now) == l.(reconciled := true)
  {
    hide ExpectedAfterGap, ShortfallMargin, DerivedBoot;
  }

  /** Before the plausibility check, an anchored latch has kept its anchor. */
  lemma JudgedKeeps(l: Latch, b: real, c: real, clock: real, settled: bool, now: real)
    requires Tracks(l, b, c, clock, settled) && now >= clock && l.boot.Some?
    requires Resumed(l) && DriftRate(l).None? ==> !FellShort(l, Shown(b, c, now), now)
    ensures Judged(l, Shown(b, c, now), now) == Sampled(l, Shown(b, c, now), now).(reconciled := true)
  {
    hide Sampled, RuntimeStep, StartupStep, DriftRate, ShortfallMargin, Shown;
    var seconds := Shown(b, c, now);
    var sampled := Sampled(l, seconds, now);
    SampledKeepsTheRest(l, seconds, now);
    if l.reconciled {
      if l.lastCounter.Some? { ShownMonotone(b, c, l.lastPollAt.value, now); }
      RuntimeKeeps(sampled, seconds, now);
    } else {
      NothingSampled(l, seconds, now);
      if DriftRate(l).Some? { TrustedExpects(l, b, c, l.storedWrittenAt.value, now); }
      StartupKeeps(sampled, seconds, now);
    }
  }

  lemma TrustedExpects(l: Latch, b: real, c: real, w: real, t: real)
    requires DriftRate(l).Some? && Close(c, l.sumWall, l.sumCounter)
    requires 0.8 <= c <= 1.2 && w <= t
    ensures Shown(b, c, t) as real >= ExpectedAfterGap(l, Shown(b, c, w), t - w) - ShortfallMargin(t - w)
  {
    RateClose(l, c);
    hide ShortfallMargin, Shown;
    NoShortfall(b, c, w, t, DriftRate(l).value);
  }

  /** An anchored latch keeps its anchor on the check, or was unsettled and becomes settled. */
  lemma CheckedSettles(l: Latch, b: real, c: real, settled: bool, now: real)
    requires 0.8 <= c <= 1.2 && l.boot.Some? && Close(c, l.sumWall, l.sumCounter) && l.sumWall <= now - b
    requires Shown(b, c, now) >= 0 && (settled ==> Settled(l.boot.value, b, now)) && (c <= 1.0 ==> settled)
    ensures var after := PlausibilityStep(l, Shown(b, c, now), now);
            after == l || (!settled && after == Relatched(l, Shown(b, c, now), now)
                           && Settled(after.boot.value, b, now))
  {
    var seconds := Shown(b, c, now);
    PlausibilityMovesExactlyWhenBehind(l, seconds, now);
    if DriftRate(l).Some? && now > l.boot.value {
      RateClose(l, c);
      if settled {
        SettledIsPlausible(b, c, now, l.boot.value, DriftRate(l).value);
      } else {
        DerivedIsSettled(l, b, c, now);
      }
    }
  }

  lemma FirstPollTracks(l: Latch, b: real, c: real, clock: real, settled: bool, now: real)
    requires Tracks(l, b, c, clock, settled) && now >= clock && l.boot.None?
    requires 0 <= Shown(b, c, now) <= MAX_PLAUSIBLE_UPTIME && now >= CLOCK_FLOOR
    ensures var seconds := Shown(b, c, now);
            var after := Seen(PlausibilityStep(Judged(l, seconds, now), seconds, now), seconds, now);
            Tracks(after, b, c, now, settled && c <= 1.0)
  {
    ShownNotNegative(b, c, now);
    if c <= 1.0 { FirstAnchorSettled(b, c, now); }
    FirstAnchorNotLate(b, c, now);
  }

  lemma FirstAnchorNotLate(b: real, c: real, t: real)
    ensures NotLate(Whole(t - Shown(b, c, t) as real), b, c, t)
  {
    ShownBounds(b, c, t);
  }

  lemma StaysNotLate(anchor: real, b: real, c: real, w: real, t: real)
    requires NotLate(anchor, b, c, w) && c <= 1.0 && w <= t
    ensures NotLate(anchor, b, c, t)
  {
    assert t - c * (t - b) - (w - c * (w - b)) == (1.0 - c) * (t - w);
    ScaleUp(0.0, 1.0 - c, t - w);
  }

  /** A counter gains at least the whole gap, less the margin, where it runs fast, and where it
      runs slow over a gap the margin covers. */
  lemma NotShort(b: real, c: real, w: real, t: real)
    requires c > 0.0 && w <= t && (1.0 - c) * (t - w) + 1.0 <= ShortfallMargin(t - w)
    ensures Shown(b, c, t) as real >= Shown(b, c, w) as real + (t - w) - ShortfallMargin(t - w)
  {
    AdvanceClose(b, c, w, t);
    assert (1.0 - c) * (t - w) == (t - w) - c * (t - w);
  }

  lemma FastIsCovered(c: real, gap: real)
    requires c >= 1.0 && gap >= 0.0
    ensures (1.0 - c) * gap + 1.0 <= ShortfallMargin(gap)
  {
    ScaleUp(1.0 - c, 0.0, gap);
  }

  /** A counter that fell short puts the anchor later than it was. */
  lemma ShortIsLater(anchor: real, b: real, c: real, w: real, t: real)
    requires NotLate(anchor, b, c, w) && w <= t
    requires (Shown(b, c, t) as real) < Shown(b, c, w) as real + (t - w) - ShortfallMargin(t - w)
    ensures Whole(t - Shown(b, c, t) as real) > anchor
  {
    ShownBounds(b, c, w);
  }

  /** The first reading of a restarted process, short before a rate is trusted: the anchor moves,
      and the invariant holds of the new one. */
  lemma ShortPollTracks(l: Latch, b: real, c: real, clock: real, settled: bool, now: real)
    requires Tracks(l, b, c, clock, settled) && now >= clock && (c <= 1.0 ==> settled)
    requires Resumed(l) && DriftRate(l).None? && FellShort(l, Shown(b, c, now), now)
    requires 0 <= Shown(b, c, now) <= MAX_PLAUSIBLE_UPTIME && now >= CLOCK_FLOOR
    ensures var seconds := Shown(b, c, now);
            var after := Seen(PlausibilityStep(Judged(l, seconds, now), seconds, now), seconds, now);
            && c <= 1.0 && settled && Tracks(after, b, c, now, settled) && after.boot != l.boot
  {
    var seconds, w := Shown(b, c, now), l.storedWrittenAt.value;
    ShownNotNegative(b, c, now);
    if c > 1.0 {
      FastIsCovered(c, now - w);
      NotShort(b, c, w, now);
    }
    ShortIsLater(l.boot.value, b, c, w, now);
    FirstAnchorSettled(b, c, now);
    FirstAnchorNotLate(b, c, now);
    JudgedOverGap(l, seconds, now);
    hide Shown, Settled, NotLate, ShortfallMargin, FellShort, Judged, Close;
    var judged := Judged(l, seconds, now);
    assert PlausibilityStep(judged, seconds, now) == judged;
  }

  lemma LaterPollTracks(l: Latch, b: real, c: real, clock: real, settled: bool, now: real) returns (done: bool)
    requires Tracks(l, b, c, clock, settled) && now >= clock && l.boot.Some? && (c <= 1.0 ==> settled)
    requires Resumed(l) && DriftRate(l).None? ==> !FellShort(l, Shown(b, c, now), now)
    requires 0 <= Shown(b, c, now) <= MAX_PLAUSIBLE_UPTIME && now >= CLOCK_FLOOR
    ensures var seconds := Shown(b, c, now);
            var after := Seen(PlausibilityStep(Judged(l, seconds, now), seconds, now), seconds, now);
            && Tracks(after, b, c, now, done)
            && (settled ==> done)
            && (after.boot != l.boot ==> !settled && done)
  {
    var seconds := Shown(b, c, now);
    ShownNotNegative(b, c, now);
    SampledClose(l, b, c, clock, settled, now);
    JudgedKeeps(l, b, c, clock, settled, now);
    var judged := Judged(l, seconds, now);
    CheckedSettles(judged, b, c, settled, now);
    if c <= 1.0 { StaysNotLate(l.boot.value, b, c, l.storedWrittenAt.value, now); }
    hide Settled, Judged, NotLate, Close, Shown;
    done := settled || PlausibilityStep(judged, seconds, now) != judged;
  }

  /** One event of a believable run: what the anchor did, and whether it is settled now. */
  lemma {:induction false} StepTracks(l: Latch, b: real, c: real, clock: real, settled: bool, e: Event)
    returns (done: bool)
    requires Tracks(l, b, c, clock, settled) && Believable(b, c, clock, e) && (c <= 1.0 ==> settled)
    ensures Tracks(Step(l, e), b, c, After(clock, e), done) && (c <= 1.0 ==> done)
    ensures ShortUntrusted(l, e) ==> c <= 1.0 && Step(l, e).boot != l.boot
    ensures l.boot.Some? && Step(l, e).boot != l.boot ==> ShortUntrusted(l, e) || (!settled && done)
    ensures l.boot.Some? && settled ==> done
  {
    done := settled;
    match e
    case StoreWrite => SnapshotTracks(l, b, c, clock, settled);
    case Restart => RestartTracks(l, b, c, clock, settled);
    case Reading(raw, now) =>
      if !Accepted(raw, now) {
        ClockTracks(l, b, c, clock, settled, now);
      } else if l.boot.None? {
        FirstPollTracks(l, b, c, clock, settled, now);
        done := settled && c <= 1.0;
      } else if ShortUntrusted(l, e) {
        ShortPollTracks(l, b, c, clock, settled, now);
      } else {
        done := LaterPollTracks(l, b, c, clock, settled, now);
      }
  }

  // ----- whole runs ----------------------------------------------------------------

  lemma {:induction false} MovesBounded(l: Latch, b: real, c: real, clock: real, settled: bool, es: seq<Event>)
    requires Tracks(l, b, c, clock, settled) && BelievableRun(b, c, clock, es) && (c <= 1.0 ==> settled)
    ensures c <= 1.0 ==> Moves(l, es) == Shortfalls(l, es)
    ensures c > 1.0 ==> Shortfalls(l, es) == 0 && Moves(l, es) <= if l.boot.Some? && settled then 0 else 1
    decreases |es|
  {
    if es != [] {
      var done := StepTracks(l, b, c, clock, settled, es[0]);
      MovesBounded(Step(l, es[0]), b, c, After(clock, es[0]), done, es[1..]);
    }
  }

  /** A router losing `r` of every second, at most a fifth either way, that never resets, over
      any readings, store writes and restarts.  Where it loses or keeps time, its anchor, once
      latched, moves exactly at the readings that fall short after a restart before a rate is
      trusted; where it gains, there are none of those, and the anchor moves at most once. */
  lemma {:induction false} AnchorStability(b: real, r: real, clock: real, es: seq<Event>)
    requires -MAX_DRIFT <= r <= MAX_DRIFT && BelievableRun(b, 1.0 - r, clock, es)
    ensures r >= 0.0 ==> Moves(Fresh(false), es) == Shortfalls(Fresh(false), es)
    ensures r < 0.0 ==> Shortfalls(Fresh(false), es) == 0 && Moves(Fresh(false), es) <= 1
  {
    MovesBounded(Fresh(false), b, 1.0 - r, clock, true, es);
  }

  /** Every restart of the run is at a trusted rate, or is followed by a gap over which what the
      counter loses stays within the margin. */
  ghost predicate HarmlessRestarts(l: Latch, c: real, es: seq<Event>)
    decreases |es|
  {
    es == [] ||
    (HarmlessReading(l, c, es[0]) && HarmlessRestarts(Step(l, es[0]), c, es[1..]))
  }

  ghost predicate HarmlessReading(l: Latch, c: real, e: Event) {
    e.Reading? && Accepted(e.raw, e.now) && Resumed(l) && DriftRate(l).None? ==>
      var gap := e.now - l.storedWrittenAt.value;
      (1.0 - c) * gap + 1.0 <= ShortfallMargin(gap)
  }

  lemma HarmlessIsNotShort(l: Latch, b: real, c: real, clock: real, settled: bool, e: Event)
    requires Tracks(l, b, c, clock, settled) && Believable(b, c, clock, e) && HarmlessReading(l, c, e)
    ensures !ShortUntrusted(l, e)
  {
    hide Step, Close, Settled, NotLate, Shown, ShortfallMargin;
    if ShortUntrusted(l, e) { NotShort(b, c, l.storedWrittenAt.value, e.now); }
  }

  lemma {:induction false} HarmlessMeansNoShortfall(
    l: Latch, b: real, c: real, clock: real, settled: bool, es: seq<Event>)
    requires Tracks(l, b, c, clock, settled) && BelievableRun(b, c, clock, es) && (c <= 1.0 ==> settled)
    requires HarmlessRestarts(l, c, es)
    ensures Shortfalls(l, es) == 0
    decreases |es|
  {
    hide Tracks, Step, Believable, ShortUntrusted, HarmlessReading, After;
    if es != [] {
      HarmlessIsNotShort(l, b, c, clock, settled, es[0]);
      var done := StepTracks(l, b, c, clock, settled, es[0]);
      HarmlessMeansNoShortfall(Step(l, es[0]), b, c, After(clock, es[0]), done, es[1..]);
    }
  }

  /** So where restarts are harmless the anchor never moves once latched, or at most once for a
      counter running fast. */
  lemma {:induction false} HarmlessRestartsKeepTheAnchor(b: real, r: real, clock: real, es: seq<Event>)
    requires -MAX_DRIFT <= r <= MAX_DRIFT && BelievableRun(b, 1.0 - r, clock, es)
    requires HarmlessRestarts(Fresh(false), 1.0 - r, es)
    ensures Moves(Fresh(false), es) <= if r >= 0.0 then 0 else 1
  {
    AnchorStability(b, r, clock, es);
    HarmlessMeansNoShortfall(Fresh(false), b, 1.0 - r, clock, true, es);
  }

  lemma NoRestartIsNotResumed(l: Latch, e: Event)
    requires !Resumed(l) && !e.Restart?
    ensures !Resumed(Step(l, e)) && !ShortUntrusted(l, e)
  {
  }

  lemma {:induction false} NoRestartNoShortfall(l: Latch, es: seq<Event>)
    requires !Resumed(l) && forall e :: e in es ==> !e.Restart?
    ensures Shortfalls(l, es) == 0
    decreases |es|
  {
    hide Step, ShortUntrusted, Resumed;
    if es != [] {
      NoRestartIsNotResumed(l, es[0]);
      NoRestartNoShortfall(Step(l, es[0]), es[1..]);
    }
  }

  /** And without a restart the anchor never moves once latched, or at most once for a counter
      running fast, whatever is read and however long nothing is. */
  lemma {:induction false} UnrestartedAnchorStays(b: real, r: real, clock: real, es: seq<Event>)
    requires -MAX_DRIFT <= r <= MAX_DRIFT && BelievableRun(b, 1.0 - r, clock, es)
    requires forall e :: e in es ==> !e.Restart?
    ensures Moves(Fresh(false), es) <= if r >= 0.0 then 0 else 1
  {
    AnchorStability(b, r, clock, es);
    NoRestartNoShortfall(Fresh(false), es);
  }

  const FAST_BOOT := 2000000000.0
  const FAST_FIRST := Reading(Some(120000.0), 2000100000.0)
  const FAST_SECOND := Reading(Some(124320.0), 2000103600.0)

  lemma FastFirstReading()
    ensures var l := Step(Fresh(false), FAST_FIRST);
            && l.boot == Some(FAST_BOOT - 20000.0) && l.reconciled && !l.pauses
            && l.lastCounter == Some(120000) && l.lastPollAt == Some(2000100000.0)
            && l.sumWall == 0.0 && l.sumCounter == 0.0
  {
    assert Truncate(120000.0) == 120000;
    assert DerivedBoot(Fresh(false), 120000, FAST_FIRST.now) == 1999980000.0;
    assert Whole(1999980000.0) == 1999980000.0;
  }

  lemma FastSecondReading(l: Latch)
    requires l.boot == Some(FAST_BOOT - 20000.0) && l.reconciled && !l.pauses
    requires l.lastCounter == Some(120000) && l.lastPollAt == Some(2000100000.0)
    requires l.sumWall == 0.0 && l.sumCounter == 0.0
    ensures Step(l, FAST_SECOND).boot == Some(FAST_BOOT)
  {
    var s := Sampled(l, 124320, FAST_SECOND.now);
    assert s.sumWall == 3600.0 && s.sumCounter == 4320.0;
    assert DriftRate(s) == Some(-0.2);
    assert DerivedBoot(s, 124320, FAST_SECOND.now) == FAST_BOOT;
    PlausibilityMovesExactlyWhenBehind(s, 124320, FAST_SECOND.now);
    assert 124320.0 < Floorline(-0.2, FAST_SECOND.now - s.boot.value);
    assert Judged(l, 124320, FAST_SECOND.now) == s;
  }

  /** The one move happens: two readings an hour apart of a counter a fifth fast. */
  lemma FastCounterMovesOnce()
    ensures var es := [FAST_FIRST, FAST_SECOND];
            BelievableRun(FAST_BOOT, 1.2, 0.0, es) && Moves(Fresh(false), es) == 1
  {
    FastFirstReading();
    var l := Step(Fresh(false), FAST_FIRST);
    FastSecondReading(l);
    assert Shown(FAST_BOOT, 1.2, FAST_FIRST.now) == 120000 && Shown(FAST_BOOT, 1.2, FAST_SECOND.now) == 124320;
    assert [FAST_FIRST, FAST_SECOND][1..] == [FAST_SECOND] && [FAST_SECOND][1..] == [];
    assert Moves(l, [FAST_SECOND]) == 1 && BelievableRun(FAST_BOOT, 1.2, FAST_FIRST.now, [FAST_SECOND]);
  }

  /** What trust on restart is for: a counter a fifth slow, restarted before its rate is
      trusted, is judged at the nominal rate and taken for reset over a day's gap. */
  lemma {:induction false} UntrustedRestartMovesTheAnchor() returns (b: real, now: real)
    ensures var l := Restarted(Step(Fresh(false), Reading(Some(0.0), b)));
            && l.boot.Some? && DriftRate(l).None?
            && Step(l, Reading(Some(Shown(b, 0.8, now) as real), now)).boot != l.boot
  {
    b, now := 2000000000.0, 2000100000.0;
    var l := Restarted(Step(Fresh(false), Reading(Some(0.0), b)));
    assert Shown(b, 0.8, now) == 80000;
    assert l.boot == Some(b) && l.storedCounter == Some(0) && l.storedWrittenAt == Some(b);
    assert Truncate(80000.0) == 80000 && Whole(now - 80000.0) == now - 80000.0;
    hide Poll;
    UntrustedGapDecision(l, Some(80000.0), now);
  }
}
