/** What holds of expected-outage windows over every run: none is left without a check, each
    ends in time, and what a record says closed it is what happened, exactly as long as no
    window opens while a check is out. */
module OutageRuns {
  import opened Options
  import opened Outage

  /** A poll waiting for its payload, or with it taken and not yet over. */
  datatype Inquiry = Inquiry(paused: bool, payload: Option<Data>)

  /** The coordinator, the checks under way, and the poll under way; polls take turns. */
  datatype System = System(c: Coordinator, out: seq<Flight>, poll: Option<Inquiry>)

  const START := System(INITIAL, [], None)

  datatype Event =
    | Open(reason: Reason, cap: real)
    | Check
    | Probe(flight: nat, answered: bool)
    | ClosingOver(flight: nat)
    | Ask(paused: bool, forced: bool)
    | Take(payload: Data)
    | Finish(failure: Option<Failure>)

  /** The checks under way after one of them went on, or ended. */
  function Moved(out: seq<Flight>, i: nat, next: Option<Flight>): seq<Flight>
    requires i < |out|
  {
    out[..i] + (if next.Some? then [next.value] else []) + out[i + 1..]
  }

  function Step(s: System, e: Event, now: real): System {
    match e
    case Open(reason, cap) => s.(c := Opened(s.c, reason, cap, now))
    case Check =>
      var (c, flight) := CheckStarted(s.c, now);
      s.(c := c, out := if flight.Some? then s.out + [flight.value] else s.out)
    case Probe(i, answered) =>
      if i < |s.out| && s.out[i].Probing? then
        var (c, flight) := ProbeReturned(s.c, s.out[i].record, answered, now);
        s.(c := c, out := Moved(s.out, i, flight))
      else s
    case ClosingOver(i) =>
      if i < |s.out| && s.out[i].Closing? then
        s.(c := ClosingReturned(s.c, s.out[i].how, s.out[i].before, now), out := Moved(s.out, i, None))
      else s
    case Ask(paused, forced) => if Skips(s.c, now, paused, forced) then s else s.(poll := Some(Inquiry(paused, None)))
    case Take(payload) =>
      if s.poll.Some? then s.(c := Succeeded(s.c, now), poll := Some(s.poll.value.(payload := Some(payload)))) else s
    case Finish(failure) => s.(c := Finished(s.c, s.poll, failure), poll := None)
  }

  /** The end of a poll, from what it was waiting for and what became of it. */
  function Finished(c: Coordinator, poll: Option<Inquiry>, failure: Option<Failure>): Coordinator {
    if poll.None? then c
    else if failure.Some? then Failed(c, failure.value, poll.value.paused).0
    else c.(data := poll.value.payload)
  }

  /** When each thing can happen: a check starts when its timer is due, whatever else is out,
      and a probe, a closing poll or a poll goes on while it is under way.  A window may open at
      any time, also while a poll is waiting. */
  ghost predicate Allowed(s: System, e: Event, now: real, clock: real) {
    && now >= clock
    && match e
       case Open(_, _) => true
       case Check => s.c.armed.Some? && now >= s.c.armed.value
       case Probe(i, _) => i < |s.out| && s.out[i].Probing?
       case ClosingOver(i) => i < |s.out| && s.out[i].Closing?
       case Ask(_, _) => s.poll.None?
       case Take(_) => s.poll.Some? && s.poll.value.payload.None?
       case Finish(failure) => s.poll.Some? && (failure.None? ==> s.poll.value.payload.Some?)
  }

  /** No window opens while a check is out. */
  ghost predicate Apart(s: System, e: Event) { e.Open? ==> s.out == [] }

  datatype Happening = Happening(event: Event, at: real)

  ghost predicate Run(s: System, clock: real, hs: seq<Happening>)
    decreases |hs|
  {
    hs == [] ||
    (Allowed(s, hs[0].event, hs[0].at, clock) && Run(Step(s, hs[0].event, hs[0].at), hs[0].at, hs[1..]))
  }

  ghost predicate ApartRun(s: System, hs: seq<Happening>)
    decreases |hs|
  {
    hs == [] || (Apart(s, hs[0].event) && ApartRun(Step(s, hs[0].event, hs[0].at), hs[1..]))
  }

  function After(s: System, hs: seq<Happening>): System
    decreases |hs|
  {
    if hs == [] then s else After(Step(s, hs[0].event, hs[0].at), hs[1..])
  }

  function Ended(clock: real, hs: seq<Happening>): real { if hs == [] then clock else hs[|hs| - 1].at }

  // ----- every run -------------------------------------------------------------------

  ghost predicate Polling(f: Flight, c: Coordinator, clock: real) {
    f.Closing? ==>
      && f.since <= clock && (f.before.Some? ==> f.before.value <= f.since)
      && (c.lastSuccess == f.before || (c.lastSuccess.Some? && c.lastSuccess.value >= f.since))
  }

  /** What no order of events can break. */
  ghost predicate Watched(s: System, clock: real) {
    && (s.c.window.Some? ==> s.c.history != [] && (s.c.armed.Some? || s.out != []))
    && (s.c.lastSuccess.Some? ==> s.c.lastSuccess.value <= clock)
    && (forall f :: f in s.out ==> Polling(f, s.c, clock))
  }

  lemma MovedHas(out: seq<Flight>, i: nat, next: Option<Flight>)
    requires i < |out|
    ensures forall f :: f in Moved(out, i, next) ==> f in out || next == Some(f)
    ensures next.Some? ==> Moved(out, i, next) != []
  {
  }

  lemma StaysPolling(out: seq<Flight>, c: Coordinator, d: Coordinator, clock: real, now: real)
    requires forall f :: f in out ==> Polling(f, c, clock)
    requires now >= clock && (d.lastSuccess == c.lastSuccess || d.lastSuccess == Some(now))
    ensures forall f :: f in out ==> Polling(f, d, now)
  {
  }

  /** What each step does to the fields a watch needs. */
  lemma StepShows(s: System, e: Event, now: real, clock: real)
    requires Watched(s, clock) && Allowed(s, e, now, clock)
    ensures var d := Step(s, e, now).c;
            && (d.lastSuccess == s.c.lastSuccess || d.lastSuccess == Some(now))
            && (d.window.Some? ==> d.history != [])
            && (d.window.Some? && e.Open? ==> d.armed.Some?)
            && (e.Ask? || e.Take? || e.Finish? ==>
                  d.window == s.c.window && d.armed == s.c.armed && Step(s, e, now).out == s.out)
  {
    hide Polling;
    if e.Ask? || e.Take? || e.Finish? { PollTouchesOnlyItsOwn(s, e, now); }
  }

  lemma StepKeepsWatch(s: System, e: Event, now: real, clock: real)
    requires Watched(s, clock) && Allowed(s, e, now, clock)
    ensures Watched(Step(s, e, now), now)
  {
    StepShows(s, e, now, clock);
    var t := Step(s, e, now);
    StaysPolling(s.out, s.c, t.c, clock, now);
    match e
    case Open(_, _) =>
    case Check => CheckKeepsWatch(s, now);
    case Probe(i, answered) => ProbeKeepsWatch(s, i, answered, now, clock);
    case ClosingOver(i) => ClosingKeepsWatch(s, i, now, clock);
    case _ =>
  }

  lemma ProbeKeepsWatch(s: System, i: nat, answered: bool, now: real, clock: real)
    requires Watched(s, clock) && Allowed(s, Probe(i, answered), now, clock)
    ensures var t := Step(s, Probe(i, answered), now);
            && (t.c.armed.Some? || t.out != [])
            && (forall f :: f in t.out ==> f in s.out || Polling(f, t.c, now))
  {
    MovedHas(s.out, i, ProbeReturned(s.c, s.out[i].record, answered, now).1);
    hide MarkedBack, MarkedDown, Moved;
  }

  lemma ClosingKeepsWatch(s: System, i: nat, now: real, clock: real)
    requires Allowed(s, ClosingOver(i), now, clock)
    ensures var t := Step(s, ClosingOver(i), now);
            && (t.c.window.Some? ==> t.c.armed.Some?)
            && (forall f :: f in t.out ==> f in s.out)
  {
    MovedHas(s.out, i, None);
  }

  lemma CheckKeepsWatch(s: System, now: real)
    ensures var t := Step(s, Check, now);
            && (t.c.window.Some? ==> t.out != [])
            && (forall f :: f in t.out ==> f in s.out || f.Probing?)
  {
  }

  lemma {:induction false} RunKeepsWatch(s: System, clock: real, hs: seq<Happening>)
    requires Watched(s, clock) && Run(s, clock, hs)
    ensures Watched(After(s, hs), Ended(clock, hs))
    decreases |hs|
  {
    hide Watched, Step;
    if hs != [] {
      StepKeepsWatch(s, hs[0].event, hs[0].at, clock);
      RunKeepsWatch(Step(s, hs[0].event, hs[0].at), hs[0].at, hs[1..]);
    }
  }

  /** Over any run at all an open window has a check armed or running. */
  lemma {:induction false} WindowsAreWatched(hs: seq<Happening>)
    requires Run(START, 0.0, hs)
    ensures var s := After(START, hs);
            s.c.window.Some? ==> s.c.history != [] && (s.c.armed.Some? || s.out != [])
  {
    RunKeepsWatch(START, 0.0, hs);
  }

  /** The checks a record has counted, against its cap. */
  ghost predicate FewChecks(r: Record) { r.checks == 0 || r.checks as real < r.cap }

  /** The open window is the latest record's, and its counted checks are at least a second apart. */
  ghost predicate Spaced(c: Coordinator, clock: real) {
    && (forall r :: r in c.history ==> FewChecks(r))
    && (c.window.Some? ==>
          && c.history != [] && c.window.value.deadline == Last(c).openedAt + Last(c).cap
          && Last(c).openedAt + Last(c).checks as real <= clock
          && (c.armed.Some? ==> Last(c).openedAt + Last(c).checks as real + OUTAGE_PROBE_FAST <= c.armed.value))
  }

  lemma SpacedLater(c: Coordinator, clock: real, now: real)
    requires Spaced(c, clock) && now >= clock
    ensures Spaced(c, now)
  {
  }

  /** Changes to records that leave the times and the count alone, and what is scheduled after. */
  lemma SpacedRescheduled(c: Coordinator, d: Coordinator, now: real)
    requires Spaced(c, now) && d.window == c.window && |d.history| == |c.history|
    requires forall k :: 0 <= k < |c.history| ==>
               d.history[k].openedAt == c.history[k].openedAt && d.history[k].cap == c.history[k].cap
               && d.history[k].checks == c.history[k].checks
    requires d.armed == c.armed || d.armed == Scheduled(d, now).armed
    ensures Spaced(d, now)
  {
    forall r | r in d.history ensures FewChecks(r) {
      var k :| 0 <= k < |d.history| && d.history[k] == r;
      assert c.history[k] in c.history;
    }
  }

  lemma ClosedKeepsSpaced(c: Coordinator, how: ClosedBy, now: real)
    requires Spaced(c, now)
    ensures Spaced(Closed(c, how, now), now)
  {
    if c.history != [] {
      assert Last(c) in c.history;
      HistoryWithLast(c.history, Last(Closed(c, how, now)));
    }
  }

  lemma OpenKeepsSpaced(c: Coordinator, reason: Reason, cap: real, now: real)
    requires forall r :: r in c.history ==> FewChecks(r)
    ensures Spaced(Opened(c, reason, cap, now), now)
  {
    HistoryAppended(c.history, Record(c.windows, now, cap, 0, if reason != Reboot then None else Some(now),
                                      None, None, None, None));
  }

  lemma CheckKeepsSpaced(c: Coordinator, now: real)
    requires Spaced(c, now) && c.armed.Some? && now >= c.armed.value
    ensures Spaced(CheckStarted(c, now).0, now)
  {
    if c.window.Some? {
      assert Last(c) in c.history;
      if Expired(c.window.value, now) {
        ClosedKeepsSpaced(c.(armed := None), Cap, now);
      } else {
        HistoryWithLast(c.history, Last(c).(checks := Last(c).checks + 1));
      }
    }
  }

  lemma ProbeKeepsSpaced(s: System, i: nat, answered: bool, now: real)
    requires Spaced(s.c, now) && i < |s.out| && s.out[i].Probing?
    ensures Spaced(Step(s, Probe(i, answered), now).c, now)
  {
    var d := Step(s, Probe(i, answered), now).c;
    forall k | 0 <= k < |s.c.history| ensures |d.history| == |s.c.history|
      && d.history[k].openedAt == s.c.history[k].openedAt && d.history[k].cap == s.c.history[k].cap
      && d.history[k].checks == s.c.history[k].checks
    {
      ProbeMarksOnlyItsOwn(s, i, answered, now, k);
    }
    assert |d.history| == |s.c.history|;
    SpacedRescheduled(s.c, d, now);
  }

  lemma ClosingKeepsSpaced(s: System, i: nat, now: real)
    requires Spaced(s.c, now) && i < |s.out| && s.out[i].Closing?
    ensures Spaced(Step(s, ClosingOver(i), now).c, now)
  {
    var c := s.c.(closing := false);
    if s.c.lastSuccess != s.out[i].before {
      ClosedKeepsSpaced(c, s.out[i].how, now);
    } else {
      SpacedRescheduled(c, Scheduled(c, now), now);
    }
  }

  lemma StepKeepsSpaced(s: System, e: Event, now: real, clock: real)
    requires Spaced(s.c, clock) && Allowed(s, e, now, clock)
    ensures Spaced(Step(s, e, now).c, now)
  {
    SpacedLater(s.c, clock, now);
    match e
    case Open(reason, cap) => OpenKeepsSpaced(s.c, reason, cap, now);
    case Check => CheckKeepsSpaced(s.c, now);
    case Probe(i, answered) => ProbeKeepsSpaced(s, i, answered, now);
    case ClosingOver(i) => ClosingKeepsSpaced(s, i, now);
    case _ =>
      hide Spaced;
      PollTouchesOnlyItsOwn(s, e, now);
      SpacedOnOther(s.c, Step(s, e, now).c, now);
  }

  lemma SpacedOnOther(c: Coordinator, d: Coordinator, now: real)
    requires Spaced(c, now) && d.window == c.window && d.history == c.history && d.armed == c.armed
    ensures Spaced(d, now)
  {
  }

  lemma {:induction false} RunKeepsSpaced(s: System, clock: real, hs: seq<Happening>)
    requires Spaced(s.c, clock) && Run(s, clock, hs)
    ensures Spaced(After(s, hs).c, Ended(clock, hs))
    decreases |hs|
  {
    hide Spaced, Step;
    if hs != [] {
      StepKeepsSpaced(s, hs[0].event, hs[0].at, clock);
      RunKeepsSpaced(Step(s, hs[0].event, hs[0].at), hs[0].at, hs[1..]);
    }
  }

  /** Over any run a window, open or closed, has counted fewer checks than its cap has seconds. */
  lemma {:induction false} ChecksAreFew(hs: seq<Happening>)
    requires Run(START, 0.0, hs)
    ensures var c := After(START, hs).c;
            && (forall r :: r in c.history ==> r.checks == 0 || r.checks as real < r.cap)
            && (c.window.Some? ==>
                  && c.history != [] && c.window.value.deadline == Last(c).openedAt + Last(c).cap
                  && Last(c).openedAt + Last(c).checks as real <= Ended(0.0, hs))
  {
    RunKeepsSpaced(START, 0.0, hs);
  }

  /** Over any run a check that starts on an open window closes it at its cap or later, and
      before that counts itself on the latest record and goes on to probe. */
  lemma {:induction false} CheckCountsOrCloses(hs: seq<Happening>, now: real)
    requires Run(START, 0.0, hs) && Allowed(After(START, hs), Check, now, Ended(0.0, hs))
    requires After(START, hs).c.window.Some?
    ensures var s := After(START, hs);
            var t := Step(s, Check, now);
            && s.c.history != [] && t.c.history != []
            && (t.c.window.None? <==> now >= s.c.window.value.deadline)
            && (t.c.window.None? ==> t.out == s.out && Last(t.c).closedBy == Some(Cap))
            && (t.c.window.Some? ==>
                  t.out == s.out + [Probing(Some(Last(s.c).id))] && Last(t.c).checks == Last(s.c).checks + 1)
  {
    RunKeepsWatch(START, 0.0, hs);
  }

  /** Over any run a window closes on an answer or for want of an outage only when a full poll
      succeeded after the probe that started the closing. */
  lemma {:induction false} ClosesOnlyOnSuccess(hs: seq<Happening>, i: nat, now: real)
    requires Run(START, 0.0, hs) && Allowed(After(START, hs), ClosingOver(i), now, Ended(0.0, hs))
    ensures var s := After(START, hs);
            s.c.window.Some? && Step(s, ClosingOver(i), now).c.window.None? ==>
              s.c.lastSuccess.Some? && s.c.lastSuccess.value >= s.out[i].since
  {
    RunKeepsWatch(START, 0.0, hs);
    assert After(START, hs).out[i] in After(START, hs).out;
  }

  /** Over any run a probe leaves every record alone but the one its check began on, whatever
      windows opened since; and that one it marks down or back by what it saw. */
  lemma {:induction false} ProbeMarksOnlyItsOwn(s: System, i: nat, answered: bool, now: real, k: nat)
    requires i < |s.out| && s.out[i].Probing? && k < |s.c.history|
    ensures var before, after := s.c.history, Step(s, Probe(i, answered), now).c.history;
            && |after| == |before|
            && (s.out[i].record != Some(before[k].id) ==> after[k] == before[k])
            && (s.out[i].record == Some(before[k].id) ==>
                  && (after[k].downAt == if s.c.awaitingDrop && !answered then Some(now) else before[k].downAt)
                  && (after[k].backAt == if !s.c.awaitingDrop && answered && before[k].backAt.None? then Some(now)
                                         else before[k].backAt)
                  && after[k] == before[k].(downAt := after[k].downAt, backAt := after[k].backAt))
  {
    MarkedAlone(s.c.history, s.out[i].record, now, k);
    hide MarkedDown, MarkedBack;
  }

  lemma MarkedAlone(h: seq<Record>, id: Option<nat>, now: real, k: nat)
    requires k < |h|
    ensures |MarkedDown(h, id, now)| == |h| == |MarkedBack(h, id, now)|
    ensures MarkedDown(h, id, now)[k] == if id == Some(h[k].id) then h[k].(downAt := Some(now)) else h[k]
    ensures MarkedBack(h, id, now)[k]
            == if id == Some(h[k].id) && h[k].backAt.None? then h[k].(backAt := Some(now)) else h[k]
  {
  }

  // ----- runs in which no window opens over a check -------------------------------------

  /** What a closed record may claim. */
  ghost predicate Honest(r: Record) {
    && (r.closedBy == Some(Answer) ==>
          r.downAt.Some? && r.backAt.Some? && r.closed.Some? && r.downAt.value <= r.backAt.value <= r.closed.value)
    && (r.closedBy == Some(NoOutage) ==>
          r.downAt.None? && r.closed.Some? && r.closed.value - r.openedAt >= OUTAGE_HOLD)
    && (r.closedBy == Some(Cap) ==> r.closed.Some? && r.closed.value >= r.openedAt + r.cap)
  }

  ghost predicate AllHonest(c: Coordinator) { forall r :: r in c.history ==> Honest(r) }

  /** The records kept are the latest windows', in order. */
  ghost predicate Numbered(h: seq<Record>, windows: nat) {
    |h| <= windows && forall i :: 0 <= i < |h| ==> h[i].id == windows - |h| + i
  }

  /** The open window's record, against the coordinator's own fields and the check out. */
  ghost predicate Tracks(c: Coordinator, out: seq<Flight>, clock: real)
    requires c.history != [] && c.window.Some?
  {
    var r := Last(c);
    && r.closedBy.None? && r.openedAt == c.openedMono <= clock
    && c.window == Some(Window(c.window.value.reason, r.openedAt + r.cap))
    && (c.awaitingDrop <==> r.downAt.None?)
    && (r.downAt.Some? ==> r.downAt.value <= clock)
    && (r.backAt.Some? ==> r.downAt.Some? && r.downAt.value <= r.backAt.value <= clock)
    && (forall f :: f in out ==>
          if f.Probing? then f.record == Some(r.id)
          else if f.how == Answer then r.backAt.Some?
          else f.how == NoOutage && r.downAt.None? && clock >= f.since >= r.openedAt + OUTAGE_HOLD)
  }

  /** One check at most is out, its timer is not armed beside it, and no record lies. */
  ghost predicate Sound(s: System, clock: real) {
    && Numbered(s.c.history, s.c.windows) && AllHonest(s.c)
    && |s.out| <= 1 && (s.out != [] ==> s.c.window.Some? && s.c.armed.None?)
    && (s.c.closing <==> s.out != [] && s.out[0].Closing?)
    && (if s.c.window.Some? then s.c.history != [] && Tracks(s.c, s.out, clock) else s.c.armed.None?)
  }

  ghost predicate Inv(s: System, clock: real) { Watched(s, clock) && Sound(s, clock) }

  lemma HistoryWithLast(h: seq<Record>, r: Record)
    requires h != []
    ensures WithLast(h, r) != [] && WithLast(h, r)[|WithLast(h, r)| - 1] == r
    ensures forall x :: x in WithLast(h, r) ==> x in h || x == r
    ensures forall n :: Numbered(h, n) && r.id == h[|h| - 1].id ==> Numbered(WithLast(h, r), n)
  {
  }

  lemma HistoryAppended(h: seq<Record>, r: Record)
    ensures Appended(h, r) != [] && Appended(h, r)[|Appended(h, r)| - 1] == r
    ensures forall x :: x in Appended(h, r) ==> x in h || x == r
    ensures Numbered(h, r.id) ==> Numbered(Appended(h, r), r.id + 1)
  {
  }

  /** The last record's mark is on the last record alone. */
  lemma MarksTheLast(h: seq<Record>, windows: nat, now: real)
    requires h != [] && Numbered(h, windows)
    ensures var last := h[|h| - 1];
            && MarkedDown(h, Some(last.id), now) == WithLast(h, last.(downAt := Some(now)))
            && MarkedBack(h, Some(last.id), now)
               == WithLast(h, if last.backAt.None? then last.(backAt := Some(now)) else last)
  {
  }

  lemma OpenKeeps(s: System, reason: Reason, cap: real, now: real, clock: real)
    requires Sound(s, clock) && Allowed(s, Open(reason, cap), now, clock) && s.out == []
    ensures Sound(Step(s, Open(reason, cap), now), now)
  {
    var c := s.c;
    HistoryAppended(c.history,
        Record(c.windows, now, cap, 0, if reason != Reboot then None else Some(now), None, None, None, None));
  }

  lemma CloseKeeps(c: Coordinator, how: ClosedBy, now: real)
    requires c.window.Some? && !c.closing && c.history != [] && Numbered(c.history, c.windows) && AllHonest(c)
    requires Honest(Last(c).(closed := Some(now), closedBy := Some(how), after := None))
    ensures forall poll :: Sound(System(Closed(c, how, now), [], poll), now)
  {
    var record := Last(c).(closed := Some(now), closedBy := Some(how),
        after := if how != Cap then c.data else Last(c).after);
    HistoryWithLast(c.history, record);
  }

  lemma CheckKeeps(s: System, now: real, clock: real)
    requires Sound(s, clock) && Allowed(s, Check, now, clock)
    ensures Sound(Step(s, Check, now), now)
  {
    if Expired(s.c.window.value, now) {
      assert Last(s.c) in s.c.history;
      CloseKeeps(s.c.(armed := None), Cap, now);
    } else {
      CountedCheckKeeps(s, now, clock);
    }
  }

  lemma CountedCheckKeeps(s: System, now: real, clock: real)
    requires Sound(s, clock) && Allowed(s, Check, now, clock) && !Expired(s.c.window.value, now)
    ensures Sound(Step(s, Check, now), now)
  {
    var r := Last(s.c);
    assert r in s.c.history && s.out == [];
    HistoryWithLast(s.c.history, r.(checks := r.checks + 1));
    hide WithLast, Numbered;
  }

  lemma ProbeKeeps(s: System, answered: bool, now: real, clock: real)
    requires Sound(s, clock) && Allowed(s, Probe(0, answered), now, clock)
    ensures Sound(Step(s, Probe(0, answered), now), now)
  {
    if s.c.awaitingDrop {
      ProbeBeforeDropKeeps(s, answered, now, clock);
    } else {
      ProbeAfterDropKeeps(s, answered, now, clock);
    }
  }

  lemma ProbeBeforeDropKeeps(s: System, answered: bool, now: real, clock: real)
    requires Sound(s, clock) && Allowed(s, Probe(0, answered), now, clock) && s.c.awaitingDrop
    ensures Sound(Step(s, Probe(0, answered), now), now)
  {
    if answered {
      hide Honest, Numbered, MarkedDown, MarkedBack, WithLast, Appended;
      assert s.out == [s.out[0]] && s.out[0] in s.out;
      ProbeGoesOnExactly(s, 0, true, now);
      var t := Step(s, Probe(0, true), now);
      assert t.c == s.c.(closing := t.c.closing, armed := t.c.armed) && t.poll == s.poll;
    } else {
      DropKeeps(s, now, clock);
    }
  }

  lemma DropKeeps(s: System, now: real, clock: real)
    requires Sound(s, clock) && Allowed(s, Probe(0, false), now, clock) && s.c.awaitingDrop
    ensures Sound(Step(s, Probe(0, false), now), now)
  {
    var c := s.c;
    var r := Last(c);
    assert r in c.history && s.out == [s.out[0]] && s.out[0] in s.out;
    MarksTheLast(c.history, c.windows, now);
    HistoryWithLast(c.history, r.(downAt := Some(now)));
    assert Honest(r.(downAt := Some(now)));
    hide Honest, WithLast, MarkedDown, MarkedBack, Numbered;
    assert Step(s, Probe(0, false), now) == s.(c := ProbeReturned(c, Some(r.id), false, now).0, out := []);
  }

  lemma ProbeAfterDropKeeps(s: System, answered: bool, now: real, clock: real)
    requires Sound(s, clock) && Allowed(s, Probe(0, answered), now, clock) && !s.c.awaitingDrop
    ensures Sound(Step(s, Probe(0, answered), now), now)
  {
    assert s.out == [s.out[0]] && s.out[0] in s.out;
    if answered {
      ReturnKeeps(s, now, clock);
    } else {
      hide Honest, Numbered;
      var (d, next) := ProbeReturned(s.c, s.out[0].record, false, now);
      assert Step(s, Probe(0, answered), now) == s.(c := d, out := []);
    }
  }

  lemma ReturnKeeps(s: System, now: real, clock: real)
    requires Sound(s, clock) && Allowed(s, Probe(0, true), now, clock) && !s.c.awaitingDrop
    ensures Sound(Step(s, Probe(0, true), now), now)
  {
    var c := s.c;
    var r, back := Last(c), MarkedAsBack(Last(c), now);
    assert r in c.history && s.out == [s.out[0]] && s.out[0] in s.out;
    ReturnMarks(c, now);
    ProbeGoesOnExactly(s, 0, true, now);
    hide Honest, WithLast, MarkedDown, MarkedBack, Numbered, Appended;
    var t := Step(s, Probe(0, true), now);
    assert t.c == c.(history := MarkedBack(c.history, Some(r.id), now), closing := true);
    hide Step, ProbeReturned;
    ReturnIsSound(t, c, back, now);
  }

  function MarkedAsBack(r: Record, now: real): Record { if r.backAt.None? then r.(backAt := Some(now)) else r }

  lemma ReturnMarks(c: Coordinator, now: real)
    requires c.history != [] && Numbered(c.history, c.windows) && AllHonest(c) && Last(c).closedBy.None?
    ensures var h := MarkedBack(c.history, Some(Last(c).id), now);
            && Numbered(h, c.windows) && AllHonest(c.(history := h))
            && h != [] && h[|h| - 1] == MarkedAsBack(Last(c), now)
  {
    var back := MarkedAsBack(Last(c), now);
    MarksTheLast(c.history, c.windows, now);
    HistoryWithLast(c.history, back);
    assert Honest(back);
    hide Honest, WithLast, MarkedDown, MarkedBack, Numbered;
  }

  lemma ReturnIsSound(t: System, c: Coordinator, back: Record, now: real)
    requires t.c == c.(history := t.c.history, closing := true) && t.out == [Closing(Answer, c.lastSuccess, now)]
    requires c.window.Some? && c.window.value.deadline == back.openedAt + back.cap && c.armed.None?
    requires Numbered(t.c.history, c.windows) && AllHonest(t.c) && t.c.history != [] && Last(t.c) == back
    requires !c.awaitingDrop && back.closedBy.None? && back.openedAt == c.openedMono <= now
    requires back.downAt.Some? && back.backAt.Some? && back.downAt.value <= back.backAt.value <= now
    ensures Sound(t, now)
  {
    hide Numbered, Honest;
  }

  lemma ClosingKeeps(s: System, now: real, clock: real)
    requires Sound(s, clock) && Allowed(s, ClosingOver(0), now, clock)
    ensures Sound(Step(s, ClosingOver(0), now), now)
  {
    assert Last(s.c) in s.c.history && s.out == [s.out[0]] && s.out[0] in s.out;
    if s.c.lastSuccess != s.out[0].before {
      CloseKeeps(s.c.(closing := false), s.out[0].how, now);
    }
  }

  lemma PollTouchesOnlyItsOwn(s: System, e: Event, now: real)
    requires e.Ask? || e.Take? || e.Finish?
    ensures var t := Step(s, e, now);
            && t.out == s.out
            && t.c == s.c.(data := t.c.data, failures := t.c.failures, health := t.c.health,
                           lastSuccess := t.c.lastSuccess)
            && (t.c.lastSuccess == s.c.lastSuccess || t.c.lastSuccess == Some(now))
  {
  }

  lemma UpdateKeeps(s: System, e: Event, now: real, clock: real)
    requires Sound(s, clock) && now >= clock && (e.Ask? || e.Take? || e.Finish?)
    ensures Sound(Step(s, e, now), now)
  {
    PollTouchesOnlyItsOwn(s, e, now);
    hide Honest, Step, Numbered;
  }

  lemma StepKeeps(s: System, e: Event, now: real, clock: real)
    requires Inv(s, clock) && Allowed(s, e, now, clock) && Apart(s, e)
    ensures Inv(Step(s, e, now), now)
  {
    assert |s.out| <= 1;
    StepKeepsWatch(s, e, now, clock);
    hide Watched, Sound, Step;
    match e
    case Open(reason, cap) => OpenKeeps(s, reason, cap, now, clock);
    case Check => CheckKeeps(s, now, clock);
    case Probe(i, answered) => ProbeKeeps(s, answered, now, clock);
    case ClosingOver(i) => ClosingKeeps(s, now, clock);
    case _ => UpdateKeeps(s, e, now, clock);
  }

  lemma {:induction false} RunKeeps(s: System, clock: real, hs: seq<Happening>)
    requires Inv(s, clock) && Run(s, clock, hs) && ApartRun(s, hs)
    ensures Inv(After(s, hs), Ended(clock, hs))
    decreases |hs|
  {
    hide Inv, Step;
    if hs != [] {
      StepKeeps(s, hs[0].event, hs[0].at, clock);
      RunKeeps(Step(s, hs[0].event, hs[0].at), hs[0].at, hs[1..]);
    }
  }

  /** Where no window opens while a check is out, one check at most is out at a time, and every
      record kept tells the truth. */
  lemma {:induction false} RecordsAreHonest(hs: seq<Happening>)
    requires Run(START, 0.0, hs) && ApartRun(START, hs)
    ensures var s := After(START, hs);
            AllHonest(s.c) && |s.out| <= 1 && (s.out != [] ==> s.c.armed.None?)
  {
    RunKeeps(START, 0.0, hs);
  }

  // ----- exactly when a window may open ------------------------------------------------

  /** Whatever window opens now, and whatever follows without another opening over a check, every
      record stays true. */
  ghost predicate MayOpen(s: System, clock: real) {
    forall reason, cap, now, hs ::
      now >= clock && Run(Step(s, Open(reason, cap), now), now, hs) && ApartRun(Step(s, Open(reason, cap), now), hs) ==>
        AllHonest(After(Step(s, Open(reason, cap), now), hs).c)
  }

  // Runs put together.

  lemma {:induction false} InARow(s: System, clock: real, a: seq<Happening>, b: seq<Happening>)
    ensures After(s, a + b) == After(After(s, a), b) && Ended(clock, a + b) == Ended(Ended(clock, a), b)
    ensures Run(s, clock, a + b) <==> Run(s, clock, a) && Run(After(s, a), Ended(clock, a), b)
    ensures ApartRun(s, a + b) <==> ApartRun(s, a) && ApartRun(After(s, a), b)
    decreases |a|
  {
    hide Step, Allowed, Apart;
    if a == [] {
      assert a + b == b;
    } else {
      assert (a + b)[1..] == a[1..] + b;
      InARow(Step(s, a[0].event, a[0].at), a[0].at, a[1..], b);
      assert Ended(a[0].at, a[1..]) == Ended(clock, a);
    }
  }

  lemma {:induction false} JustOne(s: System, clock: real, h: Happening)
    ensures After(s, [h]) == Step(s, h.event, h.at) && Ended(clock, [h]) == h.at
    ensures Run(s, clock, [h]) <==> Allowed(s, h.event, h.at, clock)
    ensures ApartRun(s, [h]) <==> Apart(s, h.event)
  {
    hide Step, Allowed, Apart;
    assert [h][1..] == [];
    assert After(Step(s, h.event, h.at), []) == Step(s, h.event, h.at);
  }

  lemma {:induction false} AndOne(s: System, clock: real, hs: seq<Happening>, h: Happening)
    requires Run(s, clock, hs) && ApartRun(s, hs)
    requires Allowed(After(s, hs), h.event, h.at, Ended(clock, hs)) && Apart(After(s, hs), h.event)
    ensures Run(s, clock, hs + [h]) && ApartRun(s, hs + [h])
    ensures After(s, hs + [h]) == Step(After(s, hs), h.event, h.at) && Ended(clock, hs + [h]) == h.at
  {
    hide Step, Allowed, Apart;
    InARow(s, clock, hs, [h]);
    JustOne(After(s, hs), Ended(clock, hs), h);
  }

  const CONNECTED := Data("ppp_connected")

  /** What is still to come before the payload of a poll can be taken while a check is closing. */
  function Before(s: System, at: real): seq<Happening> {
    if s.poll.None? then [Happening(Ask(false, false), at)]
    else if s.poll.value.payload.None? then []
    else [Happening(Finish(None), at)] + [Happening(Ask(false, false), at)]
  }

  lemma {:induction false} PollComesToItsPayload(s: System, clock: real, at: real)
    requires s.c.closing && at >= clock
    ensures var hs := Before(s, at);
            var t := After(s, hs);
            && Run(s, clock, hs) && ApartRun(s, hs) && Ended(clock, hs) <= at
            && t.poll.Some? && t.poll.value.payload.None? && t == s.(c := s.c.(data := t.c.data), poll := t.poll)
  {
    if s.poll.None? {
      JustOne(s, clock, Happening(Ask(false, false), at));
    } else if s.poll.value.payload.Some? {
      var first, second := Happening(Finish(None), at), Happening(Ask(false, false), at);
      JustOne(s, clock, first);
      var t := Step(s, first.event, at);
      assert t.c == s.c.(data := t.c.data) && t.poll.None? && t.out == s.out;
      AndOne(s, clock, [first], second);
    }
  }

  /** A closing poll that succeeds closes the latest window, whichever it was meant for. */
  lemma {:induction false} ClosesTheWrongWindow(s: System, clock: real, at: real) returns (hs: seq<Happening>)
    requires Watched(s, clock) && |s.out| == 1 && s.out[0].Closing? && s.out[0].how != Cap && s.c.closing && at > clock
    requires s.c.window.Some? && s.c.history != [] && Last(s.c).backAt.None? && Last(s.c).downAt.Some?
    ensures Run(s, clock, hs) && ApartRun(s, hs) && !AllHonest(After(s, hs).c)
  {
    assert s.out[0] in s.out;
    PollComesToItsPayload(s, clock, at);
    var before := Before(s, at);
    var t := After(s, before);
    var take, over := Happening(Take(CONNECTED), at), Happening(ClosingOver(0), at);
    AndOne(s, clock, before, take);
    var u := Step(t, take.event, at);
    assert u.c == Succeeded(t.c, at) && u.out == s.out && Last(u.c) == Last(s.c) && u.c.lastSuccess == Some(at);
    AndOne(s, clock, before + [take], over);
    hs := before + [take] + [over];
    WrongRecord(u, at);
  }

  lemma WrongRecord(u: System, at: real)
    requires |u.out| == 1 && u.out[0].Closing? && u.out[0].how != Cap && u.c.lastSuccess != u.out[0].before
    requires u.c.window.Some? && u.c.history != [] && Last(u.c).backAt.None? && Last(u.c).downAt.Some?
    ensures !AllHonest(Step(u, ClosingOver(0), at).c)
  {
    var v := Step(u, ClosingOver(0), at);
    HistoryWithLast(u.c.history, Last(u.c).(closed := Some(at), closedBy := Some(u.out[0].how), after := u.c.data));
    assert !Honest(Last(v.c)) && Last(v.c) in v.c.history;
  }

  /** A reboot window opened over a closing poll that then succeeds is closed by it. */
  lemma {:induction false} ClosingMisleads(s: System, clock: real, now: real) returns (hs: seq<Happening>)
    requires Inv(s, clock) && s.out != [] && s.out[0].Closing? && now >= clock
    ensures var t := Step(s, Open(Reboot, OUTAGE_CAP_REBOOT), now);
            Run(t, now, hs) && ApartRun(t, hs) && !AllHonest(After(t, hs).c)
  {
    var t := Step(s, Open(Reboot, OUTAGE_CAP_REBOOT), now);
    HistoryAppended(s.c.history, Record(s.c.windows, now, OUTAGE_CAP_REBOOT, 0, Some(now), None, None, None, None));
    StepKeepsWatch(s, Open(Reboot, OUTAGE_CAP_REBOOT), now, clock);
    hs := ClosesTheWrongWindow(t, now, now + 1.0);
  }

  /** A reboot window opened over a probe that is then answered is closed by its closing poll,
      while the answer went on the record before it. */
  lemma {:induction false} ProbeMisleads(s: System, clock: real, now: real) returns (hs: seq<Happening>)
    requires Inv(s, clock) && s.out != [] && s.out[0].Probing? && now >= clock
    ensures var t := Step(s, Open(Reboot, OUTAGE_CAP_REBOOT), now);
            Run(t, now, hs) && ApartRun(t, hs) && !AllHonest(After(t, hs).c)
  {
    var t := Step(s, Open(Reboot, OUTAGE_CAP_REBOOT), now);
    HistoryAppended(s.c.history, Record(s.c.windows, now, OUTAGE_CAP_REBOOT, 0, Some(now), None, None, None, None));
    StepKeepsWatch(s, Open(Reboot, OUTAGE_CAP_REBOOT), now, clock);
    assert t.out == [s.out[0]] && s.out[0].record == Some(Last(s.c).id) && Last(s.c).id == s.c.windows - 1;
    var probe := Happening(Probe(0, true), now);
    StepKeepsWatch(t, probe.event, now, now);
    var u := Step(t, probe.event, now);
    OtherMarksLeaveTheLast(t.c.history, s.out[0].record, now);
    assert u.out == [Closing(Answer, t.c.lastSuccess, now)];
    var rest := ClosesTheWrongWindow(u, now, now + 1.0);
    hs := [probe] + rest;
    JustOne(t, now, probe);
    InARow(t, now, [probe], rest);
  }

  lemma OtherMarksLeaveTheLast(h: seq<Record>, id: Option<nat>, now: real)
    requires h != [] && id != Some(h[|h| - 1].id)
    ensures |MarkedBack(h, id, now)| == |h| && MarkedBack(h, id, now)[|h| - 1] == h[|h| - 1]
  {
  }

  /** After any run in which no window opened over a check, one may open exactly when none is out. */
  lemma {:induction false} OpensExactlyBetweenChecks(hs: seq<Happening>)
    requires Run(START, 0.0, hs) && ApartRun(START, hs)
    ensures MayOpen(After(START, hs), Ended(0.0, hs)) <==> After(START, hs).out == []
  {
    RunKeeps(START, 0.0, hs);
    var s, clock := After(START, hs), Ended(0.0, hs);
    if s.out == [] {
      BetweenChecksMayOpen(s, clock);
    } else {
      OverChecksMayNot(s, clock);
    }
  }

  lemma {:induction false} BetweenChecksMayOpen(s: System, clock: real)
    requires Inv(s, clock) && s.out == []
    ensures MayOpen(s, clock)
  {
    forall reason, cap, now, hs |
      now >= clock && Run(Step(s, Open(reason, cap), now), now, hs) && ApartRun(Step(s, Open(reason, cap), now), hs)
      ensures AllHonest(After(Step(s, Open(reason, cap), now), hs).c)
    {
      hide Step;
      StepKeeps(s, Open(reason, cap), now, clock);
      RunKeeps(Step(s, Open(reason, cap), now), now, hs);
    }
  }

  lemma {:induction false} OverChecksMayNot(s: System, clock: real)
    requires Inv(s, clock) && s.out != []
    ensures !MayOpen(s, clock)
  {
    var hs;
    if s.out[0].Closing? {
      hs := ClosingMisleads(s, clock, clock);
    } else {
      hs := ProbeMisleads(s, clock, clock);
    }
    assert !AllHonest(After(Step(s, Open(Reboot, OUTAGE_CAP_REBOOT), clock), hs).c);
  }

  // A reboot window of four minutes whose every probe goes unanswered for 1.9 seconds: its
  // thirty-fifth check is out when the cap passes and the gate lets a command through.

  const CYCLE := 6.9

  function Cycle(k: nat): seq<Happening> {
    [Happening(Check, 5.0 + CYCLE * k as real), Happening(Probe(0, false), 6.9 + CYCLE * k as real)]
  }

  function Rebooted(k: nat): seq<Happening> {
    if k == 0 then [Happening(Open(Reboot, OUTAGE_CAP_REBOOT), 0.0)] else Rebooted(k - 1) + Cycle(k - 1)
  }

  ghost predicate Waiting(s: System, k: nat) {
    && s.out == [] && s.poll.None? && s.c.window == Some(Window(Reboot, OUTAGE_CAP_REBOOT)) && !s.c.awaitingDrop
    && !s.c.closing && s.c.armed == Some(5.0 + CYCLE * k as real) && s.c.lastSuccess.None? && s.c.data.None?
    && |s.c.history| == 1 && Last(s.c).id == 0
  }

  lemma CycleWaits(s: System, k: nat)
    requires Waiting(s, k) && 5.0 + CYCLE * k as real < OUTAGE_CAP_REBOOT
    ensures var (check, probe) := (Cycle(k)[0], Cycle(k)[1]);
            var t := Step(s, Check, check.at);
            && t.out == [Probing(Some(0))] && t.c.window == s.c.window && !t.c.awaitingDrop && t.c.lastSuccess.None?
            && Waiting(Step(t, Probe(0, false), probe.at), k + 1)
  {
  }

  lemma {:induction false} RebootedWaits(k: nat)
    requires k <= 34
    ensures Run(START, 0.0, Rebooted(k)) && ApartRun(START, Rebooted(k)) && Waiting(After(START, Rebooted(k)), k)
    ensures Ended(0.0, Rebooted(k)) <= 5.0 + CYCLE * k as real
  {
    if k == 0 {
      JustOne(START, 0.0, Rebooted(0)[0]);
    } else {
      RebootedWaits(k - 1);
      var s, c := After(START, Rebooted(k - 1)), Cycle(k - 1);
      CycleWaits(s, k - 1);
      hide Waiting, Step;
      assert Allowed(s, Check, c[0].at, Ended(0.0, Rebooted(k - 1))) by { IsArmed(s, k - 1); }
      AndOne(START, 0.0, Rebooted(k - 1), c[0]);
      AndOne(START, 0.0, Rebooted(k - 1) + [c[0]], c[1]);
      assert Rebooted(k) == Rebooted(k - 1) + [c[0]] + [c[1]];
    }
  }

  lemma IsArmed(s: System, k: nat)
    requires Waiting(s, k)
    ensures s.c.armed == Some(5.0 + CYCLE * k as real) && s.out == []
  {
  }

  /** Both kinds of check can be out when the gate lets a command through: a probe past the cap of
      240 seconds, and a closing poll. */
  lemma {:induction false} ChecksOutlastTheirCap() returns (probing: seq<Happening>, closing: seq<Happening>)
    ensures Run(START, 0.0, probing) && ApartRun(START, probing) && Ended(0.0, probing) == 239.6
    ensures After(START, probing).out == [Probing(Some(0))] && !Refused(After(START, probing).c, 240.1, false)
    ensures Run(START, 0.0, closing) && ApartRun(START, closing) && Ended(0.0, closing) == 239.9
    ensures After(START, closing).out == [Closing(Answer, None, 239.9)]
    ensures !Refused(After(START, closing).c, 240.1, false)
  {
    hide Rebooted, Waiting, Step, Refused, Run, ApartRun, After, Allowed;
    var cycles: nat := 34;
    var check, probe := Happening(Check, 239.6), Happening(Probe(0, true), 239.9);
    RebootedWaits(cycles);
    OutAtTheCap(After(START, Rebooted(cycles)), cycles);
    probing := Rebooted(cycles) + [check];
    closing := probing + [probe];
    AndOne(START, 0.0, Rebooted(cycles), check);
    AndOne(START, 0.0, probing, probe);
  }

  lemma OutAtTheCap(s: System, cycles: nat)
    requires cycles == 34 && Waiting(s, cycles)
    ensures forall clock :: clock <= 239.6 ==> Allowed(s, Check, 239.6, clock)
    ensures Apart(s, Check) && Apart(Step(s, Check, 239.6), Probe(0, true))
    ensures Allowed(Step(s, Check, 239.6), Probe(0, true), 239.9, 239.6)
    ensures var t := Step(s, Check, 239.6);
            && t.out == [Probing(Some(0))] && !Refused(t.c, 240.1, false)
            && Step(t, Probe(0, true), 239.9).out == [Closing(Answer, None, 239.9)]
            && !Refused(Step(t, Probe(0, true), 239.9).c, 240.1, false)
  {
    CycleWaits(s, cycles);
  }

  /** And two checks can be out at once, when a window opened over a probe: its own fast check
      starts a second later. */
  lemma {:induction false} TwoChecksAtOnce() returns (hs: seq<Happening>)
    ensures Run(START, 0.0, hs) && Ended(0.0, hs) == 239.6
    ensures var s := After(START, hs);
            var t := Step(s, Open(DataConnect, OUTAGE_CAP_DATA), 240.1);
            && !Refused(s.c, 240.1, false) && Allowed(t, Check, 241.1, 240.1)
            && |Step(t, Check, 241.1).out| == 2
  {
    var closing;
    hs, closing := ChecksOutlastTheirCap();
    hide After, Run;
    var t := Step(After(START, hs), Open(DataConnect, OUTAGE_CAP_DATA), 240.1);
    assert t.c.armed == Some(241.1) && t.c.window == Some(Window(DataConnect, 300.1));
  }

  // ----- what polls count ------------------------------------------------------------------

  /** A poll asks the router exactly where there is nothing to show yet, or a window is closing on
      it, or no window is open short of its cap and polling is not paused, or not for this poll. */
  lemma AsksExactly(s: System, now: real, paused: bool, forced: bool)
    requires s.poll.None?
    ensures Step(s, Ask(paused, forced), now).poll.Some?
            <==> || s.c.data.None? || s.c.closing
                 || ((s.c.window.None? || now >= s.c.window.value.deadline) && (forced || !paused))
    ensures forall bypass :: !Refused(s.c, now, bypass)
                             <==> bypass || s.c.window.None? || now >= s.c.window.value.deadline
  {
  }

  /** What a poll took is what is shown once it is over, and nothing else of it is touched. */
  lemma TakenIsShown(s: System, payload: Data, at: real, now: real)
    requires s.poll.Some?
    ensures var t := Step(Step(s, Take(payload), at), Finish(None), now);
            && t.c == s.c.(data := Some(payload), lastSuccess := Some(at), failures := 0, health := s.c.health + [true])
            && t.poll.None? && t.out == s.out
  {
  }

  /** A poll skipped at its start changes nothing. */
  lemma SkippedPollsCountNothing(s: System, now: real, paused: bool, forced: bool)
    ensures Active(s.c, now) && !s.c.closing && s.c.data.Some? ==> Step(s, Ask(paused, forced), now) == s
  {
  }

  /** A poll that fails before its payload is taken leaves failures and health alone exactly where
      a closing poll is under way at its end, its own or another; one that fails after its
      payload was taken was a success before. */
  lemma FailedPollsCount(s: System, now: real, why: Failure)
    requires s.poll.Some?
    ensures var d := Step(s, Finish(Some(why)), now).c;
            && (d.failures == s.c.failures && d.health == s.c.health <==> s.c.closing)
            && (!s.c.closing ==> d.failures == s.c.failures + 1 && d.health == s.c.health + [false])
            && d.lastSuccess == s.c.lastSuccess
    ensures forall payload :: s.poll.value.payload.None? ==>
              var d := Step(s, Take(payload), now).c;
              d.lastSuccess == Some(now) && d.failures == 0 && d.health == s.c.health + [true]
  {
  }

  /** So a poll waiting when a window opens counts against the router though it is expected to
      be away: asked before, failed within. */
  lemma {:induction false} PollInFlightCounts()
    ensures var hs := [Happening(Ask(false, false), 1.0)] + [Happening(Open(DataDisconnect, OUTAGE_CAP_DATA), 2.0)];
            var s := After(START, hs);
            && Run(START, 0.0, hs) && Active(s.c, 9.0) && Allowed(s, Finish(Some(Other)), 9.0, 2.0)
            && Step(s, Finish(Some(Other)), 9.0).c.failures == s.c.failures + 1
  {
    JustOne(START, 0.0, Happening(Ask(false, false), 1.0));
    AndOne(START, 0.0, [Happening(Ask(false, false), 1.0)], Happening(Open(DataDisconnect, OUTAGE_CAP_DATA), 2.0));
  }

  // ----- what is decided where ---------------------------------------------------------------

  /** A check goes on to a closing poll exactly where its probe was answered, and the router was
      seen to drop before or has been there for twenty seconds; else it is armed again, a second
      ahead while a drop is waited for, and five after one. */
  lemma ProbeGoesOnExactly(s: System, i: nat, answered: bool, now: real)
    requires i < |s.out| && s.out[i].Probing?
    ensures var t := Step(s, Probe(i, answered), now);
            var goesOn := answered && (s.c.awaitingDrop ==> now - s.c.openedMono >= 20.0);
            && (t.c.awaitingDrop <==> s.c.awaitingDrop && answered) && t.c.window == s.c.window
            && if goesOn
               then && t.out == s.out[i := Closing(if s.c.awaitingDrop then NoOutage else Answer, s.c.lastSuccess, now)]
                    && t.c.closing && t.c.armed == s.c.armed
               else && t.out == s.out[..i] + s.out[i + 1..] && t.c.closing == s.c.closing
                    && t.c.armed == Some(now + if s.c.awaitingDrop && answered then 1.0 else 5.0)
  {
    hide MarkedDown, MarkedBack;
  }

  // The history.

  /** The records kept are those of the newest five windows, in order. */
  ghost predicate Newest(c: Coordinator) {
    Numbered(c.history, c.windows) && |c.history| == if c.windows < 5 then c.windows else 5
  }

  lemma SameIds(c: Coordinator, d: Coordinator)
    requires Newest(c) && d.windows == c.windows && |d.history| == |c.history|
    requires forall i :: 0 <= i < |c.history| ==> d.history[i].id == c.history[i].id
    ensures Newest(d)
  {
  }

  lemma StepKeepsNewest(s: System, e: Event, now: real)
    requires Newest(s.c)
    ensures Newest(Step(s, e, now).c)
  {
    match e
    case Open(reason, cap) => OpenKeepsNewest(s.c, reason, cap, now);
    case Check => CheckKeepsNewest(s.c, now);
    case Probe(i, answered) =>
      if i < |s.out| && s.out[i].Probing? { ProbeKeepsNewest(s.c, s.out[i].record, answered, now); }
    case ClosingOver(i) =>
      if i < |s.out| && s.out[i].Closing? { ClosedKeepsNewest(s.c.(closing := false), s.out[i].how, now); }
    case _ => PollTouchesOnlyItsOwn(s, e, now);
  }

  lemma CheckKeepsNewest(c: Coordinator, now: real)
    requires Newest(c)
    ensures Newest(CheckStarted(c, now).0)
  {
    hide Closed;
    ClosedKeepsNewest(c.(armed := None), Cap, now);
    SameIds(c, CheckStarted(c, now).0);
  }

  lemma ClosedKeepsNewest(c: Coordinator, how: ClosedBy, now: real)
    requires Newest(c)
    ensures Newest(Closed(c, how, now)) && Newest(Scheduled(c, now))
    ensures var d := Closed(c, how, now);
            d.windows == c.windows && |d.history| == |c.history|
            && forall i :: 0 <= i < |c.history| ==> d.history[i].id == c.history[i].id
  {
    hide NeedsFollowup;
    SameIds(c, Closed(c, how, now));
  }

  lemma ProbeKeepsNewest(c: Coordinator, record: Option<nat>, answered: bool, now: real)
    requires Newest(c)
    ensures Newest(ProbeReturned(c, record, answered, now).0)
  {
    SameIds(c, ProbeReturned(c, record, answered, now).0);
  }

  lemma OpenKeepsNewest(c: Coordinator, reason: Reason, cap: real, now: real)
    requires Newest(c)
    ensures Newest(Opened(c, reason, cap, now))
  {
  }

  /** Over any run. */
  lemma {:induction false} HistoryIsNewest(s: System, hs: seq<Happening>)
    requires Newest(s.c)
    ensures Newest(After(s, hs).c)
    decreases |hs|
  {
    hide Newest, Step;
    if hs != [] {
      StepKeepsNewest(s, hs[0].event, hs[0].at);
      HistoryIsNewest(Step(s, hs[0].event, hs[0].at), hs[1..]);
    }
  }

  // The poll that follows a window.

  /** While a window is open no further poll is due; and only a window's cap closes one without. */
  ghost predicate NoneDue(s: System) {
    (s.c.window.Some? ==> !s.c.followup) && forall f :: f in s.out && f.Closing? ==> f.how != Cap
  }

  lemma StepKeepsNoneDue(s: System, e: Event, now: real)
    requires NoneDue(s)
    ensures NoneDue(Step(s, e, now))
  {
    if e.Ask? || e.Take? || e.Finish? { PollTouchesOnlyItsOwn(s, e, now); }
    hide MarkedDown, MarkedBack, WithLast, Appended;
  }

  lemma {:induction false} RunKeepsNoneDue(s: System, hs: seq<Happening>)
    requires NoneDue(s)
    ensures NoneDue(After(s, hs))
    decreases |hs|
  {
    hide NoneDue, Step;
    if hs != [] {
      StepKeepsNoneDue(s, hs[0].event, hs[0].at);
      RunKeepsNoneDue(Step(s, hs[0].event, hs[0].at), hs[1..]);
    }
  }

  /** Whether the router's connection is as a command left it to be. */
  ghost predicate AsCommanded(reason: Reason, data: Option<Data>) {
    var status := if data.Some? then data.value.pppStatus else "";
    match reason
    case DataConnect => status == "ppp_connected" || status == "ipv6_connected" || status == "ipv4_ipv6_connected"
    case DataDisconnect => status == "ppp_disconnected"
    case Reboot => true
  }

  /** Over any run a closing poll that succeeded closes the window, and one more poll is due exactly
      where the connection is not as the window's command left it to be; the record keeps what the
      poll showed.  A window closed at its cap is followed by none. */
  lemma {:induction false} FollowsUpExactly(hs: seq<Happening>, i: nat, now: real)
    requires Run(START, 0.0, hs) && After(START, hs).c.window.Some?
    ensures var s := After(START, hs);
            i < |s.out| && s.out[i].Closing? && s.c.lastSuccess != s.out[i].before ==>
              var t := Step(s, ClosingOver(i), now);
              && t.c.window.None? && t.c.armed.None? && s.c.history != []
              && (t.c.followup <==> !AsCommanded(s.c.window.value.reason, s.c.data))
              && Last(t.c).after == s.c.data && Last(t.c).closedBy == Some(s.out[i].how)
                 && Last(t.c).closed == Some(now)
    ensures var s := After(START, hs);
            now >= s.c.window.value.deadline ==> Step(s, Check, now).c.window.None? && !Step(s, Check, now).c.followup
  {
    WindowsAreWatched(hs);
    RunKeepsNoneDue(START, hs);
    hide After, Run, Moved;
  }

  // Failures in a row.

  function AfterFailures(c: Coordinator, whys: seq<Failure>, paused: bool): Coordinator {
    if whys == [] then c else Failed(AfterFailures(c, whys[..|whys| - 1], paused), whys[|whys| - 1], paused).0
  }

  /** From a success on, three polls in a row may fail and what is held is shown; with the fourth,
      or with the first where nothing is held, the failure is: as a request to sign in where the
      password was rejected, and else as an error, or as nothing on a poll that is paused. */
  lemma {:induction false} HeldThreeTimes(c: Coordinator, whys: seq<Failure>, paused: bool, why: Failure)
    requires c.failures == 0 && !c.closing && |whys| <= 3
    ensures var d := AfterFailures(c, whys, paused);
            && (c.data.Some? ==>
               d.data == c.data && d.failures == |whys| && d.health == c.health + seq(|whys|, _ => false))
            && (c.data.Some? ==> !d.closing)
            && (c.data.Some? && |whys| < 3 ==> Failed(d, why, paused).1 == Served(c.data.value))
            && ((c.data.Some? && |whys| == 3) || (c.data.None? && whys == []) ==>
                  Failed(d, why, paused).1 ==
                  match why
                  case AuthFailure(rejected) => if rejected then SignIn else Raised
                  case TimedOut => Raised
                  case Other => if paused then Empty else Raised)
  {
    if whys != [] {
      HeldThreeTimes(c, whys[..|whys| - 1], paused, whys[|whys| - 1]);
      assert seq(|whys|, _ => false) == seq(|whys| - 1, _ => false) + [false];
    }
  }

  /** A closing poll that fails shows what is held, and counts nothing. */
  lemma ClosingPollsHold(c: Coordinator, why: Failure, paused: bool)
    requires c.closing && c.data.Some?
    ensures Failed(c, why, paused) == (c, Served(c.data.value))
  {
  }
}
