/** What one accepted reading does, in whatever state it finds the latch: when it moves the
    anchor, where to, and what is stored.  Counters that pause are covered with the rest. */
module UptimeDecision {
  import opened Options
  import opened Uptime
  import opened UptimeReadings
  import opened UptimeGap

  /** There is no anchor behind now, or the counter is not within a fifth of the time since;
      one that pauses may be under it by any amount. */
  ghost predicate FarFromAnchor(l: Latch, seconds: int, now: real) {
    l.boot.None? ||
    var elapsed := now - l.boot.value;
    elapsed <= 0.0 || seconds as real > 1.2 * elapsed || (!l.pauses && (seconds as real) < 0.8 * elapsed)
  }

  /** The reading shows a reset: in a session by its own fall; across a restart by what is stored,
      against the clock where that is dated and the counter never pauses; by the anchor alone
      where nothing is stored, or the store is ahead of the clock. */
  ghost predicate ShowsReset(l: Latch, seconds: int, now: real) {
    if l.reconciled then l.lastCounter.Some? && l.lastCounter.value - seconds > 30
    else if l.storedCounter.None? then FarFromAnchor(l, seconds, now)
    else if l.pauses || l.storedWrittenAt.None? then seconds < l.storedCounter.value
    else
      var gap := now - l.storedWrittenAt.value;
      if gap < 0.0 then FarFromAnchor(l, seconds, now)
      else
        var short := l.storedCounter.value as real + gap * (1.0 - RateOf(l)) - seconds as real;
        short > 300.0 && short > gap / 50.0
  }

  ghost predicate StoreIsDue(l: Latch, now: real) { l.lastWrite.None? || now - l.lastWrite.value >= 1200.0 }

  lemma ColdTestIsBand(l: Latch, seconds: nat, now: real)
    ensures ColdStartImplausible(l, seconds, now) <==> FarFromAnchor(l, seconds, now)
  {
    if l.boot.Some? && now - l.boot.value > 0.0 {
      var elapsed, ratio := now - l.boot.value, seconds as real / (now - l.boot.value);
      QuotientTimes(seconds as real, elapsed);
      FactorOrder(ratio, 1.2, elapsed, seconds as real, 1.2 * elapsed);
      FactorOrder(ratio, 0.8, elapsed, seconds as real, 0.8 * elapsed);
    }
  }

  /** Before the check: the anchor is put at the instant derived where the reading shows a reset,
      and the reading is stored with it; else nothing changes but that startup is over. */
  lemma JudgedShowsReset(l: Latch, seconds: nat, now: real)
    ensures Judged(l, seconds, now) ==
            var sampled := Sampled(l, seconds, now);
            var judged := if ShowsReset(sampled, seconds, now) then Relatched(sampled, seconds, now) else sampled;
            judged.(reconciled := true)
  {
    var sampled := Sampled(l, seconds, now);
    SampledKeepsTheRest(l, seconds, now);
    ColdTestIsBand(sampled, seconds, now);
    hide Sampled, DriftRate, DerivedBoot, Whole, ColdStartImplausible, FarFromAnchor;
    assert RateOf(sampled) == if DriftRate(sampled).Some? then DriftRate(sampled).value else 0.0;
  }

  /** One accepted reading moves the anchor exactly where it shows a reset, or shows the counter
      behind the anchor at a trusted rate; always to the second in which, at the rate trusted by
      then, the counter was at zero.  The reading is stored exactly where the anchor moved or
      twenty minutes have passed since the last write. */
  lemma {:induction false} PollDecision(l: Latch, raw: Option<real>, now: real)
    requires Accepted(raw, now)
    ensures var seconds := Truncate(raw.value);
            var sampled, after := Sampled(l, seconds, now), Poll(l, raw, now);
            var moves := ShowsReset(sampled, seconds, now) || CheckActs(sampled, seconds, now);
            && after.boot == (if moves then Some(Whole(now - seconds as real / (1.0 - RateOf(sampled)))) else l.boot)
            && after.reconciled && after.lastCounter == Some(seconds) && after.lastPollAt == Some(now)
            && (after.storedCounter, after.storedWrittenAt, after.lastWrite) ==
               if moves || StoreIsDue(l, now) then (Some(seconds), Some(now), Some(now))
               else (l.storedCounter, l.storedWrittenAt, l.lastWrite)
  {
    var seconds := Truncate(raw.value);
    var sampled, judged := Sampled(l, seconds, now), Judged(l, seconds, now);
    SampledKeepsTheRest(l, seconds, now);
    JudgedShowsReset(l, seconds, now);
    PlausibilityMovesExactlyWhenBehind(judged, seconds, now);
    DerivedAtRate(sampled, seconds, now);
    DerivedAtRate(judged, seconds, now);
    hide Sampled, Judged, PlausibilityStep, ShowsReset, DerivedBoot, Whole;
    assert DriftRate(judged) == DriftRate(sampled);
    hide DriftRate, Floorline;
    ghost var at := Some(Whole(now - seconds as real / (1.0 - RateOf(sampled))));
    if ShowsReset(sampled, seconds, now) {
      assert judged.boot == at && judged.lastWrite == Some(now);
    }
  }

  lemma DerivedAtRate(l: Latch, seconds: int, now: real)
    ensures DerivedBoot(l, seconds, now) == now - seconds as real / (1.0 - RateOf(l))
  {
  }

  /** A fall beyond the margin within a session is a reset, whatever else holds, and is dated at
      the rate learned before it: on the very second of the reset where the counter was read as it
      ticked, and else from a second before it to a second and a quarter after. */
  lemma {:induction false} ResetInSessionIsDated(l: Latch, raw: Option<real>, now: real)
    requires l.reconciled && l.lastCounter.Some? && Accepted(raw, now)
    requires Truncate(raw.value) < l.lastCounter.value - 30
    ensures var seconds, after := Truncate(raw.value), Poll(l, raw, now);
            && after.boot == Some(Whole(now - seconds as real / (1.0 - RateOf(l))))
            && after.storedCounter == Some(seconds) && after.storedWrittenAt == Some(now)
            && forall p :: ResetAt(l, p, seconds, now) ==>
                 && p - 1.0 < after.boot.value < p + 1.25
                 && (seconds as real == (1.0 - RateOf(l)) * (now - p) ==> after.boot.value == Whole(p))
  {
    var seconds := Truncate(raw.value);
    assert Sampled(l, seconds, now) == l;
    PollDecision(l, raw, now);
    hide Poll, RateOf, ResetAt;
    forall p | ResetAt(l, p, seconds, now)
      ensures var at := Whole(now - seconds as real / (1.0 - RateOf(l)));
              && p - 1.0 < at < p + 1.25
              && (seconds as real == (1.0 - RateOf(l)) * (now - p) ==> at == Whole(p))
    {
      ResetInstant(l, p, seconds, now);
    }
  }

  /** A sample of the rate is one interval of a minute or more over which the counter rose, on a counter
      that never pauses; it adds its time and its advance to the sums, which are scaled down together
      only past thirty days, and nothing else touches them. */
  lemma SampleExactly(l: Latch, seconds: int, now: real)
    ensures var s := Sampled(l, seconds, now);
            if !l.pauses && l.lastCounter.Some? && l.lastPollAt.Some?
               && now - l.lastPollAt.value >= 60.0 && seconds > l.lastCounter.value
            then
              var wall := l.sumWall + (now - l.lastPollAt.value);
              var counter := l.sumCounter + (seconds - l.lastCounter.value) as real;
              && s.intervals == l.intervals + 1
              && (wall <= 2592000.0 ==> s.sumWall == wall && s.sumCounter == counter)
              && (wall > 2592000.0 ==>
                    s.sumWall == wall * (2592000.0 / wall) && s.sumCounter == counter * (2592000.0 / wall))
            else s == l
  {
  }

  /** A reading that is not accepted changes nothing, and one is not where it is missing, negative
      or beyond ten years, or the clock was never set. */
  lemma RejectedChangesNothing(l: Latch, raw: Option<real>, now: real)
    ensures (raw.None? || raw.value <= -1.0 || raw.value >= 315360001.0 || now < 1704067200.0) <==> !Accepted(raw, now)
    ensures !Accepted(raw, now) ==> Poll(l, raw, now) == l
  {
  }

  /** What a write saves a restart brings back: all but what belongs to the session. */
  lemma RestartRestores(l: Latch)
    requires l.entryBoot == l.boot && (l.boot.None? ==> l.storedCounter.None? && l.storedWrittenAt.None?)
    ensures Restarted(Snapshot(l)) ==
            Snapshot(l).(lastCounter := None, lastPollAt := None, lastWrite := None, reconciled := false)
  {
  }

  /** A stored counter without an anchor is no evidence: it is dropped, and the first reading
      accepted makes an anchor whatever was stored. */
  lemma {:induction false} OrphanIsDropped(l: Latch, raw: Option<real>, now: real)
    requires l.entryBoot.None? && Accepted(raw, now)
    ensures var again := Restarted(l);
            && again.storedCounter.None?
               && (l.saved.Some? && l.saved.value.counter.Some? ==> again.storedWrittenAt.None?)
            && Poll(again, raw, now).boot == Some(Whole(now - Truncate(raw.value) as real / (1.0 - RateOf(again))))
  {
    var again := Restarted(l);
    NothingSampled(again, Truncate(raw.value), now);
    PollDecision(again, raw, now);
  }
}
