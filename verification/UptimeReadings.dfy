/** What the latch keeps whatever the router reports: the drift accumulators, the
    derived instant, and where an anchor can move to on one poll. */
module UptimeReadings {
  import opened Options
  import opened Uptime

  datatype Event =
    | Reading(raw: Option<real>, now: real)
    | StoreWrite                       // the other latch's write snapshots this one too
    | Restart

  function Step(l: Latch, e: Event): Latch {
    match e
    case Reading(raw, now) => Poll(l, raw, now)
    case StoreWrite => Snapshot(l)
    case Restart => Restarted(l)
  }

  function Run(l: Latch, es: seq<Event>): Latch
    decreases |es|
  {
    if es == [] then l else Run(Step(l, es[0]), es[1..])
  }

  // ----- drift accumulators ---------------------------------------------------

  /** The accumulated pair is within the cap and its rate lies between the extreme samples. */
  ghost predicate Balanced(sumWall: real, sumCounter: real, rateMin: Option<real>, rateMax: Option<real>) {
    && 0.0 <= sumWall <= DRIFT_ACCUMULATOR_CAP
    && (rateMin.None? <==> sumWall == 0.0) && (rateMax.None? <==> sumWall == 0.0)
    && (sumWall == 0.0 ==> sumCounter == 0.0)
    && (sumWall > 0.0 ==>
          (1.0 - rateMax.value) * sumWall <= sumCounter <= (1.0 - rateMin.value) * sumWall)
  }

  ghost predicate AccumulatorsHold(l: Latch) {
    && Balanced(l.sumWall, l.sumCounter, l.rateMin, l.rateMax)
    && (l.saved.Some? ==>
          var r := l.saved.value; Balanced(r.sumWall, r.sumCounter, r.rateMin, r.rateMax))
  }

  /** Scaling both accumulators together leaves their ratio where it was. */
  lemma RescalingKeepsTheRatio(l: Latch)
    requires l.sumWall > 0.0
    ensures var s := Rescaled(l);
            s.sumWall == Min(l.sumWall, DRIFT_ACCUMULATOR_CAP)
            && s.sumCounter / s.sumWall == l.sumCounter / l.sumWall
  {
    if l.sumWall > DRIFT_ACCUMULATOR_CAP {
      var k := DRIFT_ACCUMULATOR_CAP / l.sumWall;
      assert l.sumWall * k == DRIFT_ACCUMULATOR_CAP;
      QuotientOfScaled(l.sumCounter, l.sumWall, k);
    }
  }

  lemma QuotientOfScaled(x: real, y: real, k: real)
    requires y > 0.0 && k > 0.0
    ensures y * k > 0.0 && (x * k) / (y * k) == x / y
  {
    var q := x / y;
    assert q * y == x;
    assert x * k == q * (y * k);
  }

  /** `a * w` grows with `a` when `w` is not negative. */
  lemma ScaleUp(a: real, b: real, w: real)
    requires a <= b && 0.0 <= w
    ensures a * w <= b * w
  {
  }

  /** One more interval inside the bounds keeps the sum inside the bounds. */
  lemma SumWithinBounds(lo: real, hi: real, w: real, c: real, wall: real, advance: real)
    requires lo * w <= c <= hi * w && lo * wall <= advance <= hi * wall
    ensures lo * (w + wall) <= c + advance <= hi * (w + wall)
  {
  }

  lemma ScaledWithinBounds(lo: real, hi: real, w: real, c: real, k: real)
    requires lo * w <= c <= hi * w && 0.0 <= k
    ensures lo * (w * k) <= c * k <= hi * (w * k)
  {
    ScaleUp(lo * w, c, k);
    ScaleUp(c, hi * w, k);
    assert lo * w * k == lo * (w * k) && hi * w * k == hi * (w * k);
  }

  lemma OneMoreSample(lo0: real, hi0: real, w: real, c: real, lo: real, hi: real, sample: real, wall: real)
    requires w >= 0.0 && wall >= 0.0 && lo0 * w <= c <= hi0 * w
    requires lo <= sample <= hi && (w == 0.0 || (lo <= lo0 && hi0 <= hi))
    ensures lo * (w + wall) <= c + sample * wall <= hi * (w + wall)
  {
    var advance := sample * wall;
    assert lo * wall <= advance <= hi * wall by {
      ScaleUp(lo, sample, wall);
      ScaleUp(sample, hi, wall);
    }
    assert lo * w <= c <= hi * w by {
      if w > 0.0 {
        ScaleUp(lo, lo0, w);
        ScaleUp(hi0, hi, w);
      }
    }
    SumWithinBounds(lo, hi, w, c, wall, advance);
  }

  lemma SummingKeepsBounds(l: Latch, wall: real, advance: real)
    requires wall > 0.0 && Balanced(l.sumWall, l.sumCounter, l.rateMin, l.rateMax)
    ensures var s := Summed(l, wall, advance);
            (1.0 - s.rateMax.value) * s.sumWall <= s.sumCounter <= (1.0 - s.rateMin.value) * s.sumWall
  {
    var kept := advance / wall;
    assert kept * wall == advance;
    var s := Summed(l, wall, advance);
    OneMoreSample(if l.rateMax.None? then 0.0 else 1.0 - l.rateMax.value,
                  if l.rateMin.None? then 0.0 else 1.0 - l.rateMin.value,
                  l.sumWall, l.sumCounter, 1.0 - s.rateMax.value, 1.0 - s.rateMin.value, kept, wall);
  }

  lemma RescalingKeepsBounds(l: Latch, lo: real, hi: real)
    requires l.sumWall > 0.0 && lo * l.sumWall <= l.sumCounter <= hi * l.sumWall
    ensures var s := Rescaled(l);
            0.0 < s.sumWall <= DRIFT_ACCUMULATOR_CAP && lo * s.sumWall <= s.sumCounter <= hi * s.sumWall
  {
    if l.sumWall > DRIFT_ACCUMULATOR_CAP {
      var k := DRIFT_ACCUMULATOR_CAP / l.sumWall;
      assert l.sumWall * k == DRIFT_ACCUMULATOR_CAP;
      ScaledWithinBounds(lo, hi, l.sumWall, l.sumCounter, k);
    }
  }

  lemma RescalingKeepsExtremes(l: Latch)
    ensures Rescaled(l).rateMin == l.rateMin && Rescaled(l).rateMax == l.rateMax
  {
  }

  lemma SummedShape(l: Latch, wall: real, advance: real)
    requires wall > 0.0 && l.sumWall >= 0.0
    ensures var s := Summed(l, wall, advance); s.sumWall > 0.0 && s.rateMin.Some? && s.rateMax.Some?
  {
  }

  lemma SummingKeepsBalance(l: Latch, wall: real, advance: real)
    requires wall > 0.0 && Balanced(l.sumWall, l.sumCounter, l.rateMin, l.rateMax)
    ensures var s := Rescaled(Summed(l, wall, advance)); Balanced(s.sumWall, s.sumCounter, s.rateMin, s.rateMax)
  {
    hide Rescaled, Summed;
    SummedShape(l, wall, advance);
    SummingKeepsBounds(l, wall, advance);
    var s := Summed(l, wall, advance);
    RescalingKeepsBounds(s, 1.0 - s.rateMax.value, 1.0 - s.rateMin.value);
    RescalingKeepsExtremes(s);
  }

  lemma SamplingKeepsBalance(l: Latch, seconds: int, now: real)
    requires Balanced(l.sumWall, l.sumCounter, l.rateMin, l.rateMax)
    ensures var s := Sampled(l, seconds, now); Balanced(s.sumWall, s.sumCounter, s.rateMin, s.rateMax)
  {
    hide Rescaled, Summed;
    if SampleUsable(l, seconds, now) {
      SummingKeepsBalance(l, now - l.lastPollAt.value, (seconds - l.lastCounter.value) as real);
    }
  }

  /** A sample changes what was learned about the rate and nothing else. */
  lemma SampledKeepsTheRest(l: Latch, seconds: int, now: real)
    ensures var s := Sampled(l, seconds, now);
            s == l.(sumWall := s.sumWall, sumCounter := s.sumCounter, intervals := s.intervals,
                    rateMin := s.rateMin, rateMax := s.rateMax)
  {
  }

  lemma NothingSampled(l: Latch, seconds: int, now: real)
    requires l.lastCounter.None?
    ensures Sampled(l, seconds, now) == l
  {
  }

  /** The block a store write would take from the latch as it stands. */
  function BlockOf(l: Latch): Record { Snapshot(l).saved.value }

  ghost predicate SameSums(r: Record, l: Latch) {
    r.sumWall == l.sumWall && r.sumCounter == l.sumCounter && r.rateMin == l.rateMin && r.rateMax == l.rateMax
  }

  /** Only the sample touches the accumulators; a store write in the same poll saves them as sampled. */
  lemma PollSums(l: Latch, raw: Option<real>, now: real)
    requires Accepted(raw, now)
    ensures var sampled, after := Sampled(l, Truncate(raw.value), now), Poll(l, raw, now);
            && SameSums(BlockOf(after), sampled)
            && (after.saved == l.saved || (after.saved.Some? && SameSums(after.saved.value, sampled)))
  {
    var seconds := Truncate(raw.value);
    var sampled, judged := Sampled(l, seconds, now), Judged(l, seconds, now);
    assert sampled.saved == l.saved;
    assert SameSums(BlockOf(judged), sampled);
    assert judged.saved == l.saved || SameSums(judged.saved.value, sampled);
  }

  lemma StepKeepsAccumulators(l: Latch, e: Event)
    requires AccumulatorsHold(l)
    ensures AccumulatorsHold(Step(l, e))
  {
    if e.Reading? && Accepted(e.raw, e.now) {
      SamplingKeepsBalance(l, Truncate(e.raw.value), e.now);
      PollSums(l, e.raw, e.now);
    }
  }

  /** Over any readings, store writes and restarts the accumulators stay within the cap
      and their unclamped rate stays between the smallest and the largest sample. */
  lemma {:induction false} RunKeepsAccumulators(l: Latch, es: seq<Event>)
    requires AccumulatorsHold(l)
    ensures AccumulatorsHold(Run(l, es))
    decreases |es|
  {
    if es != [] {
      StepKeepsAccumulators(l, es[0]);
      RunKeepsAccumulators(Step(l, es[0]), es[1..]);
    }
  }

  /** A quotient lies where cross-multiplying puts it. */
  lemma QuotientWithin(lo: real, hi: real, w: real, c: real)
    requires w > 0.0 && lo * w <= c <= hi * w
    ensures lo <= c / w <= hi
  {
    var q := c / w;
    assert q * w == c;
  }

  lemma FreshRunStaysBalanced(pauses: bool, es: seq<Event>)
    ensures var l := Run(Fresh(pauses), es);
            && 0.0 <= l.sumWall <= DRIFT_ACCUMULATOR_CAP
            && (l.sumWall > 0.0 ==>
                  && l.rateMin.Some? && l.rateMax.Some?
                  && l.rateMin.value <= 1.0 - l.sumCounter / l.sumWall <= l.rateMax.value)
  {
    hide Run;
    RunKeepsAccumulators(Fresh(pauses), es);
    if Run(Fresh(pauses), es).sumWall > 0.0 { BalancedRate(Run(Fresh(pauses), es)); }
  }

  lemma BalancedRate(l: Latch)
    requires Balanced(l.sumWall, l.sumCounter, l.rateMin, l.rateMax) && l.sumWall > 0.0
    ensures l.rateMin.value <= 1.0 - l.sumCounter / l.sumWall <= l.rateMax.value
  {
    QuotientWithin(1.0 - l.rateMax.value, 1.0 - l.rateMin.value, l.sumWall, l.sumCounter);
  }

  /** A trusted rate puts the derived instant between the two extremes it may claim. */
  lemma DerivedWithinBounds(l: Latch, seconds: nat, now: real)
    requires DriftRate(l).Some?
    ensures now - seconds as real / 0.8 <= DerivedBoot(l, seconds, now) <= now - seconds as real / 1.2
  {
    var d := 1.0 - DriftRate(l).value;
    var s := seconds as real;
    var q := s / d;
    assert 0.8 <= d <= 1.2 && q * d == s;
    assert q >= 0.0;
    ScaleUp(0.8, d, q);
    ScaleUp(d, 1.2, q);
  }

  /** The rate the latch goes by, which is none until one is trusted. */
  function RateOf(l: Latch): (r: real)
    ensures -MAX_DRIFT <= r <= MAX_DRIFT
  {
    if DriftRate(l).Some? then DriftRate(l).value else 0.0
  }

  // ----- where one poll can put the anchor --------------------------------------

  /** The seconds the plausibility check asks for at the least. */
  function Floorline(rate: real, elapsed: real): real { (1.0 - rate - PLAUSIBILITY_TOLERANCE) * elapsed }

  /** The two-sided check acts on one side only: a counter ahead of the anchor puts the
      candidate before the anchor, where the second guard discards it; a counter behind
      the anchor always puts it after. */
  lemma PlausibilityMovesExactlyWhenBehind(l: Latch, seconds: nat, now: real)
    ensures PlausibilityStep(l, seconds, now) ==
            if DriftRate(l).Some? && l.boot.Some? && now > l.boot.value
               && seconds as real < Floorline(DriftRate(l).value, now - l.boot.value)
            then Relatched(l, seconds, now) else l
  {
    if DriftRate(l).Some? && l.boot.Some? && now > l.boot.value {
      RatioAgainstAnchor(seconds as real, now - l.boot.value, 1.0 - DriftRate(l).value);
    }
  }

  lemma QuotientTimes(s: real, e: real)
    requires e > 0.0
    ensures (s / e) * e == s
  {
  }

  /** Where `s / e` sits against `d`, and `s / d` against `e`. */
  lemma RatioAgainstAnchor(s: real, e: real, d: real)
    requires s >= 0.0 && e > 0.0 && d >= 0.8
    ensures s / e - d < -PLAUSIBILITY_TOLERANCE <==> s < (d - PLAUSIBILITY_TOLERANCE) * e
    ensures s / e - d > PLAUSIBILITY_TOLERANCE ==> s / d > e
    ensures s / e - d < -PLAUSIBILITY_TOLERANCE ==> s / d < e
  {
    QuotientTimes(s, e);
    QuotientTimes(s, d);
    QuotientsAgainst(s, e, d, s / e, s / d);
  }

  lemma QuotientsAgainst(s: real, e: real, d: real, ratio: real, back: real)
    requires e > 0.0 && d >= 0.8 && ratio * e == s && back * d == s
    ensures ratio < d - PLAUSIBILITY_TOLERANCE <==> s < (d - PLAUSIBILITY_TOLERANCE) * e
    ensures ratio > d <==> back > e
    ensures ratio < d <==> back < e
  {
    var low, whole := (d - PLAUSIBILITY_TOLERANCE) * e, d * e;
    FactorOrder(ratio, d - PLAUSIBILITY_TOLERANCE, e, s, low);
    FactorOrder(ratio, d, e, s, whole);
    FactorOrder(back, e, d, s, whole);
  }

  /** A positive factor keeps the order of two numbers, both ways. */
  lemma FactorOrder(x: real, y: real, k: real, xk: real, yk: real)
    requires k > 0.0 && xk == x * k && yk == y * k
    ensures x < y <==> xk < yk
    ensures x > y <==> xk > yk
  {
    var gap := yk - xk;
    assert (y - x) * k == gap;
  }

  /** An accepted poll leaves the anchor alone or puts it at the truncated instant derived
      from that very reading, also when the plausibility check runs after a latch. */
  lemma AnchorStaysOrIsDerived(l: Latch, raw: Option<real>, now: real)
    ensures var after := Poll(l, raw, now);
            after.boot == l.boot
            || (Accepted(raw, now)
                && after.boot == Some(Whole(DerivedBoot(Sampled(l, Truncate(raw.value), now),
                                                        Truncate(raw.value), now))))
  {
    if Accepted(raw, now) {
      var seconds := Truncate(raw.value);
      var sampled := Sampled(l, seconds, now);
      var judged := Judged(l, seconds, now);
      assert DriftRate(judged) == DriftRate(sampled);
      assert sampled.boot == l.boot;
      assert judged.boot == l.boot || judged.boot == Some(Whole(DerivedBoot(sampled, seconds, now)));
    }
  }

  /** The anchor in the config entry is always the anchor in memory. */
  lemma AnchorIsPersisted(l: Latch, e: Event)
    requires l.entryBoot == l.boot
    ensures Step(l, e).entryBoot == Step(l, e).boot
  {
    if e.Reading? && Accepted(e.raw, e.now) {
      var seconds := Truncate(e.raw.value);
      SampledKeepsTheRest(l, seconds, e.now);
      hide DriftRate, DerivedBoot, ExpectedAfterGap, ColdStartImplausible, Whole, Sampled;
      var judged := Judged(l, seconds, e.now);
      assert judged.entryBoot == judged.boot;
      assert PlausibilityStep(judged, seconds, e.now).entryBoot == PlausibilityStep(judged, seconds, e.now).boot;
    }
  }

  ghost predicate WholeSecond(at: Option<real>) { at.Some? ==> Whole(at.value) == at.value }

  /** The plausibility check acts: the counter is behind the anchor by more than the tolerance. */
  ghost predicate CheckActs(l: Latch, seconds: int, now: real) {
    DriftRate(l).Some? && l.boot.Some? && now > l.boot.value
    && seconds as real < Floorline(DriftRate(l).value, now - l.boot.value)
  }

  /** In a reconciled session, without a counter drop beyond the margin, a poll moves the anchor
      earlier exactly when the check acts, the anchor stands within a second, and the instant
      derived falls in that same second. */
  lemma {:induction false} MovesEarlierExactly(l: Latch, raw: Option<real>, now: real)
    requires l.reconciled && l.boot.Some? && Accepted(raw, now)
    requires l.lastCounter.None? || Truncate(raw.value) >= l.lastCounter.value - UPTIME_REBOOT_MARGIN
    ensures var seconds, after := Truncate(raw.value), Poll(l, raw, now);
            var sampled := Sampled(l, seconds, now);
            && after.boot.Some?
            && after.boot == (if CheckActs(sampled, seconds, now) then Some(Whole(DerivedBoot(sampled, seconds, now)))
               else l.boot)
            && (after.boot.value < l.boot.value <==>
                  && CheckActs(sampled, seconds, now) && !WholeSecond(l.boot)
                  && Whole(DerivedBoot(sampled, seconds, now)) == Whole(l.boot.value))
  {
    var seconds := Truncate(raw.value);
    var judged := Judged(l, seconds, now);
    assert judged.boot == l.boot;
    PlausibilityMovesExactlyWhenBehind(judged, seconds, now);
    if CheckActs(judged, seconds, now) {
      var at := DerivedBoot(judged, seconds, now);
      assert at > l.boot.value by { CandidateIsLater(judged, seconds, now); }
      assert at.Floor >= l.boot.value.Floor;
    }
  }

  lemma CandidateIsLater(l: Latch, seconds: nat, now: real)
    requires CheckActs(l, seconds, now)
    ensures DerivedBoot(l, seconds, now) > l.boot.value
  {
    RatioAgainstAnchor(seconds as real, now - l.boot.value, 1.0 - DriftRate(l).value);
  }

  /** So an anchor on a whole second never moves earlier without such a drop, and stays on one. */
  lemma {:induction false} NoDropNeverMovesEarlier(l: Latch, raw: Option<real>, now: real)
    requires l.reconciled && l.boot.Some? && WholeSecond(l.boot)
    requires Accepted(raw, now) ==>
               l.lastCounter.None? || Truncate(raw.value) >= l.lastCounter.value - UPTIME_REBOOT_MARGIN
    ensures var after := Poll(l, raw, now);
            after.boot.Some? && after.boot.value >= l.boot.value && WholeSecond(after.boot)
  {
    if Accepted(raw, now) {
      MovesEarlierExactly(l, raw, now);
    }
  }

  /** Without the whole second it can: a candidate half a second later truncates to before
      the anchor it replaces. */
  lemma FractionalAnchorCanMoveEarlier() returns (l: Latch, raw: Option<real>, now: real)
    ensures l.reconciled && l.boot.Some? && !WholeSecond(l.boot)
    ensures Accepted(raw, now) && l.lastCounter == Some(Truncate(raw.value))
    ensures var after := Poll(l, raw, now); after.boot.Some? && after.boot.value < l.boot.value
  {
    now := 2000000000.75;
    l := Fresh(false).(reconciled := true, boot := Some(1999999999.5), entryBoot := Some(1999999999.5),
                       lastCounter := Some(1), sumWall := 3600.0, sumCounter := 4320.0);
    raw := Some(1.0);
    assert DriftRate(l) == Some(-0.2);
    assert Sampled(l, 1, now) == l;
    assert DerivedBoot(l, 1, now) == now - 1.0 / 1.2;
    assert 1.0 / 1.2 < 1.0;
    var at := DerivedBoot(l, 1, now);
    assert 1999999999.9 <= at < 2000000000.0;
    assert at.Floor == 1999999999;
    assert 1.0 / 1.25 - 1.2 < -PLAUSIBILITY_TOLERANCE;
  }
}
