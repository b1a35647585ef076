/** The boot-time latch of the coordinator: one router counter, the start instant
    frozen from it, and what was learned about the counter's rate.

    `Latch` is the value a latch holds and the functions over it say what each step
    does to that value.  The class `UptimeLatch` holds the same fields and changes
    them in place, as the coordinator does; every method is proved to take the value
    to where the function says.  Instants are seconds since the epoch, as reals. */
module Uptime {
  import opened Options

  const UPTIME_REBOOT_MARGIN := 30
  const MAX_DRIFT := 0.2
  // The first instant of the year 2024, read in UTC.
  const CLOCK_FLOOR := 1704067200.0
  const MAX_PLAUSIBLE_UPTIME := 10 * 365 * 24 * 3600
  const DRIFT_MIN_INTERVAL := 60.0
  const DRIFT_MIN_ACCUMULATED := 3600.0
  const DRIFT_ACCUMULATOR_CAP := 2592000.0
  const SHORTFALL_MARGIN_FLOOR := 300.0
  const SHORTFALL_MARGIN_RATE := 0.02
  const PLAUSIBILITY_TOLERANCE := 0.05
  const UPTIME_WRITE_INTERVAL := 1200.0

  /** One latch's block of the stored record. */
  datatype Record = Record(
    counter: Option<int>, writtenAt: Option<real>,
    sumWall: real, sumCounter: real, intervals: nat,
    rateMin: Option<real>, rateMax: Option<real>)

  /** A latch.  `entryBoot` is the anchor kept in the config entry and `saved` the
      latch's block of the store as of the last snapshot; both outlive a restart. */
  datatype Latch = Latch(
    pauses: bool,
    boot: Option<real>, lastCounter: Option<int>, lastPollAt: Option<real>, reconciled: bool,
    storedCounter: Option<int>, storedWrittenAt: Option<real>, lastWrite: Option<real>,
    sumWall: real, sumCounter: real, intervals: nat,
    rateMin: Option<real>, rateMax: Option<real>,
    entryBoot: Option<real>, saved: Option<Record>)

  function Fresh(pauses: bool): Latch {
    Latch(pauses, None, None, None, false, None, None, None, 0.0, 0.0, 0, None, None, None, None)
  }

  // ----- arithmetic the source takes from Python ------------------------------

  function Max(x: real, y: real): real { if x < y then y else x }

  function Min(x: real, y: real): real { if y < x then y else x }

  /** `int(float(raw))`, which truncates toward zero. */
  function Truncate(x: real): int { if x < 0.0 then -((-x).Floor) else x.Floor }

  /** `replace(microsecond=0)` on an instant. */
  function Whole(x: real): real { x.Floor as real }

  // ----- what each step does to a latch ----------------------------------------

  function Clamped(rate: real): (r: real)
    ensures -MAX_DRIFT <= r <= MAX_DRIFT
  {
    Max(-MAX_DRIFT, Min(MAX_DRIFT, rate))
  }

  function DriftRate(l: Latch): (r: Option<real>)
    ensures r.Some? <==> !l.pauses && l.sumWall >= DRIFT_MIN_ACCUMULATED
    ensures r.Some? ==> -MAX_DRIFT <= r.value <= MAX_DRIFT
  {
    if l.pauses || l.sumWall < DRIFT_MIN_ACCUMULATED then None
    else Some(Clamped(1.0 - l.sumCounter / l.sumWall))
  }

  function DerivedBoot(l: Latch, seconds: int, now: real): real {
    match DriftRate(l)
    case None => now - seconds as real
    case Some(rate) => now - seconds as real / (1.0 - rate)
  }

  function Rescaled(l: Latch): Latch {
    if l.sumWall > DRIFT_ACCUMULATOR_CAP then
      var scale := DRIFT_ACCUMULATOR_CAP / l.sumWall;
      l.(sumWall := l.sumWall * scale, sumCounter := l.sumCounter * scale)
    else l
  }

  predicate SampleUsable(l: Latch, seconds: int, now: real) {
    && !l.pauses && l.lastCounter.Some? && l.lastPollAt.Some?
    && now - l.lastPollAt.value >= DRIFT_MIN_INTERVAL
    && seconds - l.lastCounter.value > 0
  }

  function Summed(l: Latch, wall: real, advance: real): Latch
    requires wall > 0.0
  {
    var sample := 1.0 - advance / wall;
    l.(sumWall := l.sumWall + wall,
       sumCounter := l.sumCounter + advance,
       rateMin := Some(if l.rateMin.None? then sample else Min(l.rateMin.value, sample)),
       rateMax := Some(if l.rateMax.None? then sample else Max(l.rateMax.value, sample)),
       intervals := l.intervals + 1)
  }

  function Sampled(l: Latch, seconds: int, now: real): Latch {
    if SampleUsable(l, seconds, now)
    then Rescaled(Summed(l, now - l.lastPollAt.value, (seconds - l.lastCounter.value) as real))
    else l
  }

  function Snapshot(l: Latch): Latch {
    l.(saved := Some(Record(l.storedCounter, l.storedWrittenAt, l.sumWall, l.sumCounter,
                            l.intervals, l.rateMin, l.rateMax)))
  }

  function Written(l: Latch, seconds: int, now: real): Latch {
    Snapshot(l.(storedCounter := Some(seconds), storedWrittenAt := Some(now), lastWrite := Some(now)))
  }

  function Latched(l: Latch, at: real, seconds: int, now: real): Latch {
    Written(l.(boot := Some(Whole(at)), entryBoot := Some(Whole(at))), seconds, now)
  }

  function Relatched(l: Latch, seconds: int, now: real): Latch {
    Latched(l, DerivedBoot(l, seconds, now), seconds, now)
  }

  function Persisted(l: Latch, seconds: int, now: real): Latch {
    if l.lastWrite.Some? && now - l.lastWrite.value < UPTIME_WRITE_INTERVAL then l
    else Written(l, seconds, now)
  }

  function RuntimeStep(l: Latch, seconds: int, now: real): Latch {
    if l.lastCounter.Some? && seconds < l.lastCounter.value - UPTIME_REBOOT_MARGIN
    then Relatched(l, seconds, now)
    else l
  }

  predicate ColdStartImplausible(l: Latch, seconds: int, now: real) {
    l.boot.None? ||
    var elapsed := now - l.boot.value;
    elapsed <= 0.0 ||
    var ratio := seconds as real / elapsed;
    ratio > 1.0 + MAX_DRIFT || (!l.pauses && ratio < 1.0 - MAX_DRIFT)
  }

  function ColdStep(l: Latch, seconds: int, now: real): Latch {
    if ColdStartImplausible(l, seconds, now) then Relatched(l, seconds, now) else l
  }

  function FloorStep(l: Latch, seconds: int, now: real): Latch {
    if l.storedCounter.Some? && seconds < l.storedCounter.value then Relatched(l, seconds, now) else l
  }

  function ShortfallMargin(elapsed: real): real {
    Max(SHORTFALL_MARGIN_FLOOR, elapsed * SHORTFALL_MARGIN_RATE)
  }

  /** What the counter should read after a gap, at the rate learned so far. */
  function ExpectedAfterGap(l: Latch, stored: int, elapsed: real): real {
    var rate := if DriftRate(l).Some? then DriftRate(l).value else 0.0;
    stored as real + elapsed * (1.0 - rate)
  }

  function ShortfallStep(l: Latch, seconds: int, now: real, stored: int, writtenAt: real): Latch {
    var elapsed := now - writtenAt;
    if elapsed < 0.0 then ColdStep(l, seconds, now)
    else if seconds as real < ExpectedAfterGap(l, stored, elapsed) - ShortfallMargin(elapsed)
    then Relatched(l, seconds, now)
    else l
  }

  function StartupStep(l: Latch, seconds: int, now: real): Latch {
    var judged :=
      if l.storedCounter.None? then ColdStep(l, seconds, now)
      else if l.pauses || l.storedWrittenAt.None? then FloorStep(l, seconds, now)
      else ShortfallStep(l, seconds, now, l.storedCounter.value, l.storedWrittenAt.value);
    judged.(reconciled := true)
  }

  function PlausibilityStep(l: Latch, seconds: int, now: real): Latch {
    var rate := DriftRate(l);
    if rate.None? || l.boot.None? then l
    else
      var elapsed := now - l.boot.value;
      if elapsed <= 0.0 then l
      else if -PLAUSIBILITY_TOLERANCE <= seconds as real / elapsed - (1.0 - rate.value) <= PLAUSIBILITY_TOLERANCE then l
      else if DerivedBoot(l, seconds, now) <= l.boot.value then l
      else Relatched(l, seconds, now)
  }

  /** Whether a reading gets past the bad-reading, clock and plausible-uptime guards. */
  predicate Accepted(raw: Option<real>, now: real) {
    raw.Some? && 0 <= Truncate(raw.value) <= MAX_PLAUSIBLE_UPTIME && now >= CLOCK_FLOOR
  }

  /** The latch just before the plausibility check of an accepted poll. */
  function Judged(l: Latch, seconds: int, now: real): Latch {
    var sampled := Sampled(l, seconds, now);
    if l.reconciled then RuntimeStep(sampled, seconds, now) else StartupStep(sampled, seconds, now)
  }

  function Seen(l: Latch, seconds: int, now: real): Latch {
    Persisted(l.(lastCounter := Some(seconds), lastPollAt := Some(now)), seconds, now)
  }

  /** One poll. */
  function Poll(l: Latch, raw: Option<real>, now: real): Latch {
    if !Accepted(raw, now) then l
    else
      var seconds := Truncate(raw.value);
      Seen(PlausibilityStep(Judged(l, seconds, now), seconds, now), seconds, now)
  }

  /** A new process: the anchor comes back from the config entry, everything else from
      the store, and a stored counter without an anchor is dropped. */
  function Restarted(l: Latch): Latch {
    var bare := Fresh(l.pauses).(boot := l.entryBoot, entryBoot := l.entryBoot, saved := l.saved);
    match l.saved
    case None => bare
    case Some(r) =>
      var orphan := l.entryBoot.None? && r.counter.Some?;
      bare.(storedCounter := if orphan then None else r.counter,
            storedWrittenAt := if orphan then None else r.writtenAt,
            sumWall := r.sumWall, sumCounter := r.sumCounter, intervals := r.intervals,
            rateMin := r.rateMin, rateMax := r.rateMax)
  }

  // ----- the latch as the coordinator holds it ----------------------------------

  class UptimeLatch {
    const pauses: bool
    var boot: Option<real>
    var lastCounter: Option<int>
    var lastPollAt: Option<real>
    var reconciled: bool
    var storedCounter: Option<int>
    var storedWrittenAt: Option<real>
    var lastWrite: Option<real>
    var sumWall: real
    var sumCounter: real
    var intervals: nat
    var rateMin: Option<real>
    var rateMax: Option<real>
    var entryBoot: Option<real>
    var saved: Option<Record>

    ghost function View(): Latch
      reads this
    {
      Latch(pauses, boot, lastCounter, lastPollAt, reconciled, storedCounter, storedWrittenAt, lastWrite,
            sumWall, sumCounter, intervals, rateMin, rateMax, entryBoot, saved)
    }

    constructor (pauses: bool, entryBoot: Option<real>, saved: Option<Record>)
      ensures View() == Restarted(Fresh(pauses).(entryBoot := entryBoot, saved := saved))
    {
      this.pauses := pauses;
      boot, this.entryBoot, this.saved := entryBoot, entryBoot, saved;
      lastCounter, lastPollAt, lastWrite, reconciled := None, None, None, false;
      storedCounter, storedWrittenAt := None, None;
      sumWall, sumCounter, intervals, rateMin, rateMax := 0.0, 0.0, 0, None, None;
      if saved.Some? {
        var r := saved.value;
        if entryBoot.Some? || r.counter.None? {
          storedCounter, storedWrittenAt := r.counter, r.writtenAt;
        }
        sumWall, sumCounter, intervals := r.sumWall, r.sumCounter, r.intervals;
        rateMin, rateMax := r.rateMin, r.rateMax;
      }
    }

    method Rate() returns (rate: Option<real>)
      ensures rate == DriftRate(View())
    {
      if pauses || sumWall < DRIFT_MIN_ACCUMULATED { return None; }
      var r := 1.0 - sumCounter / sumWall;
      return Some(Max(-MAX_DRIFT, Min(MAX_DRIFT, r)));
    }

    method Derived(seconds: int, now: real) returns (at: real)
      ensures at == DerivedBoot(View(), seconds, now)
    {
      var rate := Rate();
      var elapsed := if rate.None? then seconds as real else seconds as real / (1.0 - rate.value);
      return now - elapsed;
    }

    method RecordDriftSample(seconds: int, now: real)
      modifies this
      ensures View() == Sampled(old(View()), seconds, now)
    {
      if pauses || lastCounter.None? || lastPollAt.None? { return; }
      var wall := now - lastPollAt.value;
      var advance := seconds - lastCounter.value;
      if wall < DRIFT_MIN_INTERVAL || advance <= 0 { return; }
      sumWall := sumWall + wall;
      sumCounter := sumCounter + advance as real;
      var sample := 1.0 - advance as real / wall;
      rateMin := Some(if rateMin.None? then sample else Min(rateMin.value, sample));
      rateMax := Some(if rateMax.None? then sample else Max(rateMax.value, sample));
      intervals := intervals + 1;
      assert View() == Summed(old(View()), wall, advance as real);
      if sumWall > DRIFT_ACCUMULATOR_CAP {
        var scale := DRIFT_ACCUMULATOR_CAP / sumWall;
        sumWall := sumWall * scale;
        sumCounter := sumCounter * scale;
      }
    }

    method StoreRecord()
      modifies this
      ensures View() == Snapshot(old(View()))
    {
      saved := Some(Record(storedCounter, storedWrittenAt, sumWall, sumCounter, intervals, rateMin, rateMax));
    }

    method WriteCounter(seconds: int, now: real)
      modifies this
      ensures View() == Written(old(View()), seconds, now)
    {
      storedCounter := Some(seconds);
      storedWrittenAt := Some(now);
      lastWrite := Some(now);
      StoreRecord();
    }

    method LatchBootTime(at: real, seconds: int, now: real)
      modifies this
      ensures View() == Latched(old(View()), at, seconds, now)
    {
      boot := Some(Whole(at));
      entryBoot := boot;
      WriteCounter(seconds, now);
    }

    method Relatch(seconds: int, now: real)
      modifies this
      ensures View() == Relatched(old(View()), seconds, now)
    {
      var at := Derived(seconds, now);
      LatchBootTime(at, seconds, now);
    }

    method ApplyRuntime(seconds: int, now: real)
      modifies this
      ensures View() == RuntimeStep(old(View()), seconds, now)
    {
      if lastCounter.None? { return; }
      if seconds < lastCounter.value - UPTIME_REBOOT_MARGIN {
        Relatch(seconds, now);
      }
    }

    method ColdImplausible(seconds: int, now: real) returns (implausible: bool)
      ensures implausible == ColdStartImplausible(View(), seconds, now)
    {
      if boot.None? { return true; }
      var elapsed := now - boot.value;
      if elapsed <= 0.0 { return true; }
      var ratio := seconds as real / elapsed;
      if pauses { return ratio > 1.0 + MAX_DRIFT; }
      return ratio < 1.0 - MAX_DRIFT || ratio > 1.0 + MAX_DRIFT;
    }

    method ShortfallTest(seconds: int, now: real, stored: int, writtenAt: real)
      modifies this
      ensures View() == ShortfallStep(old(View()), seconds, now, stored, writtenAt)
    {
      var elapsed := now - writtenAt;
      if elapsed < 0.0 {
        var implausible := ColdImplausible(seconds, now);
        if implausible { Relatch(seconds, now); }
        return;
      }
      var rate := Rate();
      var expected := stored as real + elapsed * (1.0 - if rate.Some? then rate.value else 0.0);
      var margin := Max(SHORTFALL_MARGIN_FLOOR, elapsed * SHORTFALL_MARGIN_RATE);
      if seconds as real < expected - margin {
        Relatch(seconds, now);
      }
    }

    method ReconcileStartup(seconds: int, now: real)
      modifies this
      ensures View() == StartupStep(old(View()), seconds, now)
    {
      if storedCounter.Some? {
        if pauses || storedWrittenAt.None? {
          if seconds < storedCounter.value { Relatch(seconds, now); }
        } else {
          ShortfallTest(seconds, now, storedCounter.value, storedWrittenAt.value);
        }
        reconciled := true;
        return;
      }
      var implausible := ColdImplausible(seconds, now);
      if implausible { Relatch(seconds, now); }
      reconciled := true;
    }

    method CheckAnchorPlausible(seconds: int, now: real)
      modifies this
      ensures View() == PlausibilityStep(old(View()), seconds, now)
    {
      var rate := Rate();
      if rate.None? || boot.None? { return; }
      var elapsed := now - boot.value;
      if elapsed <= 0.0 { return; }
      var gap := seconds as real / elapsed - (1.0 - rate.value);
      if (if gap < 0.0 then -gap else gap) <= PLAUSIBILITY_TOLERANCE { return; }
      var candidate := Derived(seconds, now);
      if candidate <= boot.value { return; }
      LatchBootTime(candidate, seconds, now);
    }

    method MaybePersist(seconds: int, now: real)
      modifies this
      ensures View() == Persisted(old(View()), seconds, now)
    {
      if lastWrite.Some? && now - lastWrite.value < UPTIME_WRITE_INTERVAL { return; }
      WriteCounter(seconds, now);
    }

    /** Route one counter reading through the latch. */
    method Apply(raw: Option<real>, now: real)
      modifies this
      ensures View() == Poll(old(View()), raw, now)
    {
      if raw.None? { return; }
      var seconds := Truncate(raw.value);
      if seconds < 0 { return; }
      if now < CLOCK_FLOOR { return; }
      if seconds > MAX_PLAUSIBLE_UPTIME { return; }
      RecordDriftSample(seconds, now);
      if reconciled {
        ApplyRuntime(seconds, now);
      } else {
        ReconcileStartup(seconds, now);
      }
      CheckAnchorPlausible(seconds, now);
      lastCounter := Some(seconds);
      lastPollAt := Some(now);
      MaybePersist(seconds, now);
    }
  }
}
