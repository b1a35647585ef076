/** Total Connected Time: which readings are believed. */
module TotalTime {
  import opened Options
  import opened Uptime

  const TOTAL_TIME_RISE_MARGIN := 0.05
  const TOTAL_TIME_RISE_SLACK_SECONDS := 120.0

  datatype Accepted = Accepted(value: int, at: real)

  type Reading = (Option<real>, real)   // what was read, and when

  /** A reading as whole seconds, or nothing where it is blank or negative. */
  function CounterSeconds(raw: Option<real>): Option<int> {
    if raw.Some? && Truncate(raw.value) >= 0 then Some(Truncate(raw.value)) else None
  }

  /** The rise that may be believed after some time. */
  function Allowed(elapsed: real): real {
    Max(elapsed, 0.0) * (1.0 + TOTAL_TIME_RISE_MARGIN) + TOTAL_TIME_RISE_SLACK_SECONDS
  }

  function Check(baseline: Option<Accepted>, r: Reading): (Option<Accepted>, Option<int>) {
    match CounterSeconds(r.0)
    case None => (baseline, None)
    case Some(value) =>
      if baseline.Some? && value >= baseline.value.value
         && (value - baseline.value.value) as real > Allowed(r.1 - baseline.value.at)
      then (baseline, None)
      else (Some(Accepted(value, r.1)), Some(value))
  }

  class TotalTimeCheck {
    var baseline: Option<Accepted>

    method CheckedTotalTime(raw: Option<real>, now: real) returns (shown: Option<int>)
      modifies this
      ensures (baseline, shown) == Check(old(baseline), (raw, now))
    {
      if raw.None? || Truncate(raw.value) < 0 { return None; }
      var value := Truncate(raw.value);
      if baseline.Some? && value >= baseline.value.value {
        var elapsed := Max(now - baseline.value.at, 0.0);
        var allowed := elapsed * (1.0 + TOTAL_TIME_RISE_MARGIN) + TOTAL_TIME_RISE_SLACK_SECONDS;
        if (value - baseline.value.value) as real > allowed { return None; }
      }
      baseline := Some(Accepted(value, now));
      return Some(value);
    }
  }

  /** A reading is believed exactly when it is there and not negative, and is no more than two
      minutes above the one believed before, with a twentieth more than the time since; a first
      reading and a fall always are.  One not believed leaves all as it was. */
  lemma BelievedExactly(baseline: Option<Accepted>, raw: Option<real>, now: real)
    ensures var (after, shown) := Check(baseline, (raw, now));
            && (shown.Some? <==>
                  && raw.Some? && raw.value > -1.0
                  && (baseline.None?
                      || Truncate(raw.value) as real
                         <= baseline.value.value as real + 120.0
                            + (if now > baseline.value.at then (now - baseline.value.at) * 1.05 else 0.0)))
            && (shown.Some? ==> shown.value == Truncate(raw.value) && after == Some(Accepted(shown.value, now)))
            && (shown.None? ==> after == baseline)
  {
  }

  function After(baseline: Option<Accepted>, rs: seq<Reading>): Option<Accepted> {
    if rs == [] then baseline else Check(After(baseline, rs[..|rs| - 1]), rs[|rs| - 1]).0
  }

  /** How many of the readings were believed. */
  function Believed(baseline: Option<Accepted>, rs: seq<Reading>): nat {
    if rs == [] then 0
    else
      Believed(baseline, rs[..|rs| - 1])
      + if Check(After(baseline, rs[..|rs| - 1]), rs[|rs| - 1]).1.Some? then 1 else 0
  }

  ghost predicate InOrder(from: real, rs: seq<Reading>) {
    && (forall i :: 0 <= i < |rs| ==> from <= rs[i].1)
    && (forall i, j :: 0 <= i < j < |rs| ==> rs[i].1 <= rs[j].1)
  }

  /** No usable reading of the stretch is below what was believed before it. */
  ghost predicate NoFall(baseline: Accepted, rs: seq<Reading>) {
    forall i :: 0 <= i < |rs| && CounterSeconds(rs[i].0).Some? ==>
      var before := After(Some(baseline), rs[..i]);
      before.Some? && CounterSeconds(rs[i].0).value >= before.value.value
  }

  /** Along a stretch without a fall the value shown rises by at most a twentieth more than
      the time passed, and two minutes for every reading believed. */
  lemma {:induction false} RiseIsBounded(baseline: Accepted, rs: seq<Reading>)
    requires InOrder(baseline.at, rs) && NoFall(baseline, rs)
    ensures var last := After(Some(baseline), rs);
            && last.Some? && last.value.value >= baseline.value && last.value.at >= baseline.at
            && (rs != [] ==> last.value.at <= rs[|rs| - 1].1)
            && (last.value.value - baseline.value) as real
               <= (last.value.at - baseline.at) * 1.05 + 120.0 * Believed(Some(baseline), rs) as real
    decreases |rs|
  {
    if rs != [] {
      var front, r := rs[..|rs| - 1], rs[|rs| - 1];
      assert forall i :: 0 <= i < |front| ==> front[..i] == rs[..i];
      RiseIsBounded(baseline, front);
      assert front != [] ==> front[|front| - 1].1 <= r.1;
    }
  }

  /** Rejecting changes nothing, so a value held constant stays rejected until the instant
      its rise is covered, and is believed on the first reading from then on. */
  lemma {:induction false} ConstantIsBelievedInTime(baseline: Accepted, value: int, raw: real, rs: seq<Reading>,
      now: real)
    requires Truncate(raw) == value && value >= 0 && value as real > baseline.value as real + 120.0
    requires forall i :: 0 <= i < |rs| ==>
               rs[i].0 == Some(raw) && (rs[i].1 - baseline.at) * 1.05 < (value - baseline.value) as real - 120.0
    ensures After(Some(baseline), rs) == Some(baseline) && Believed(Some(baseline), rs) == 0
    ensures Check(After(Some(baseline), rs), (Some(raw), now)).1
            == if (now - baseline.at) * 1.05 >= (value - baseline.value) as real - 120.0 then Some(value) else None
    decreases |rs|
  {
    if rs != [] {
      ConstantIsBelievedInTime(baseline, value, raw, rs[..|rs| - 1], now);
      assert rs[|rs| - 1].0 == Some(raw);
    }
  }
}
