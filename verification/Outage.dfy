/** The expected-outage window: polls skipped, requests refused, and the timer that decides
    when the router has come back.

    `Coordinator` is the value of the coordinator's fields the window touches, with one
    function for each stretch of code between two awaits; the class changes the same
    fields in place.  A `Flight` is a check at one of its two awaits, with what it holds on to
    across it.  Instants are readings of one monotonic clock, in seconds. */
module Outage {
  import opened Options

  const OUTAGE_PROBE_FAST := 1.0
  const OUTAGE_CHECK_INTERVAL := 5.0
  const OUTAGE_HOLD := 20.0
  const OUTAGE_CAP_DATA := 60.0
  const OUTAGE_CAP_REBOOT := 240.0
  const OUTAGE_HISTORY_CAP := 5
  const FETCH_STRIKE_LIMIT := 3

  datatype Reason = DataConnect | DataDisconnect | Reboot
  datatype ClosedBy = Cap | Answer | NoOutage
  datatype Data = Data(pppStatus: string)

  /** Why a poll failed; a rejection is the router's word that the password is wrong. */
  datatype Failure = TimedOut | AuthFailure(rejected: bool) | Other

  /** What asking the router came to; a poll can also fail after its payload was taken. */
  datatype Fetch = Fetched(data: Data) | FetchFailed(why: Failure) | FailedAfter(why: Failure)

  datatype Window = Window(reason: Reason, deadline: real)

  /** What is kept of a window after it closes. */
  datatype Record = Record(
    id: nat, openedAt: real, cap: real, checks: nat, downAt: Option<real>, backAt: Option<real>,
    closed: Option<real>, closedBy: Option<ClosedBy>, after: Option<Data>)

  /** A check waiting for its probe, with the record it began on, or for its closing poll. */
  datatype Flight = Probing(record: Option<nat>) | Closing(how: ClosedBy, before: Option<real>, since: real)

  datatype Coordinator = Coordinator(
    window: Option<Window>, armed: Option<real>, followup: bool,
    awaitingDrop: bool, openedMono: real, closing: bool, history: seq<Record>, windows: nat,
    data: Option<Data>, failures: nat, health: seq<bool>, lastSuccess: Option<real>)

  predicate Expired(w: Window, now: real) { now >= w.deadline }

  predicate Active(c: Coordinator, now: real) { c.window.Some? && !Expired(c.window.value, now) }

  /** Whether a router request is refused. */
  predicate Refused(c: Coordinator, now: real, bypass: bool) { Active(c, now) && !bypass }

  function Appended(h: seq<Record>, r: Record): seq<Record> {
    (if |h| >= OUTAGE_HISTORY_CAP then h[1..] else h) + [r]
  }

  /** The latest record changed, where there is one. */
  function WithLast(h: seq<Record>, r: Record): seq<Record> {
    if h == [] then h else h[..|h| - 1] + [r]
  }

  function Last(c: Coordinator): Record
    requires c.history != []
  {
    c.history[|c.history| - 1]
  }

  function LastId(c: Coordinator): Option<nat> { if c.history == [] then None else Some(Last(c).id) }

  /** One record marked down, or back where it was not yet, wherever it stands by now. */
  function MarkedDown(h: seq<Record>, id: Option<nat>, now: real): seq<Record> {
    seq(|h|, i requires 0 <= i < |h| => if id == Some(h[i].id) then h[i].(downAt := Some(now)) else h[i])
  }

  function MarkedBack(h: seq<Record>, id: Option<nat>, now: real): seq<Record> {
    seq(|h|, i requires 0 <= i < |h| =>
      if id == Some(h[i].id) && h[i].backAt.None? then h[i].(backAt := Some(now)) else h[i])
  }

  function Scheduled(c: Coordinator, now: real): Coordinator {
    c.(armed := Some(now + if c.awaitingDrop then OUTAGE_PROBE_FAST else OUTAGE_CHECK_INTERVAL))
  }

  function Opened(c: Coordinator, reason: Reason, cap: real, now: real): Coordinator {
    var awaiting := reason != Reboot;
    var record := Record(c.windows, now, cap, 0, if awaiting then None else Some(now), None, None, None, None);
    Scheduled(c.(window := Some(Window(reason, now + cap)), followup := false, awaitingDrop := awaiting,
                 openedMono := now, history := Appended(c.history, record), windows := c.windows + 1), now)
  }

  predicate Settled(reason: Reason, status: string) {
    if reason == DataConnect then status in {"ppp_connected", "ipv6_connected", "ipv4_ipv6_connected"}
    else status == "ppp_disconnected"
  }

  /** The state of the data connection that a closing poll left unsettled. */
  predicate NeedsFollowup(c: Coordinator, how: ClosedBy) {
    how != Cap && c.window.Some? && c.window.value.reason != Reboot
    && !Settled(c.window.value.reason, if c.data.Some? then c.data.value.pppStatus else "")
  }

  function Closed(c: Coordinator, how: ClosedBy, now: real): Coordinator {
    var quiet := c.(armed := None, window := None, awaitingDrop := false);
    if c.history == [] then quiet
    else
      var record := Last(c).(closed := Some(now), closedBy := Some(how),
                             after := if how != Cap then c.data else Last(c).after);
      quiet.(history := WithLast(c.history, record), followup := c.followup || NeedsFollowup(c, how))
  }

  /** The timer fires; a check that goes on is waiting for its probe. */
  function CheckStarted(c: Coordinator, now: real): (Coordinator, Option<Flight>) {
    var fired := c.(armed := None);
    if c.window.None? then (fired, None)
    else if Expired(c.window.value, now) then (Closed(fired, Cap, now), None)
    else
      (fired.(history := if c.history == [] then [] else WithLast(c.history, Last(c).(checks := Last(c).checks + 1))),
       Some(Probing(LastId(c))))
  }

  /** A probe has been answered, or not; what it saw goes on the record its check began on. */
  function ProbeReturned(c: Coordinator, record: Option<nat>, answered: bool, now: real): (Coordinator,
      Option<Flight>) {
    if c.awaitingDrop then
      if !answered then
        (Scheduled(c.(awaitingDrop := false, history := MarkedDown(c.history, record, now)), now), None)
      else if now - c.openedMono >= OUTAGE_HOLD then
        (c.(closing := true), Some(Closing(NoOutage, c.lastSuccess, now)))
      else (Scheduled(c, now), None)
    else if answered then
      (c.(history := MarkedBack(c.history, record, now), closing := true), Some(Closing(Answer, c.lastSuccess, now)))
    else (Scheduled(c, now), None)
  }

  /** A closing poll is over; it succeeded when the time of the last success changed. */
  function ClosingReturned(c: Coordinator, how: ClosedBy, before: Option<real>, now: real): Coordinator {
    var open := c.(closing := false);
    if c.lastSuccess != before then Closed(open, how, now) else Scheduled(open, now)
  }

  datatype Polled = Served(data: Data) | Empty | Raised | SignIn

  /** Whether a poll returns what is held without asking the router. */
  predicate Skips(c: Coordinator, now: real, paused: bool, forced: bool) {
    c.data.Some? && !c.closing && ((paused && !forced) || Active(c, now))
  }

  /** The payload has been taken: from here on the poll counts as a success. */
  function Succeeded(c: Coordinator, now: real): Coordinator {
    c.(lastSuccess := Some(now), failures := 0, health := c.health + [true])
  }

  /** A poll has failed: what is held while it may be, then the error, or a request to sign in.
      A poll that returns nothing leaves no values behind. */
  function Failed(c: Coordinator, why: Failure, paused: bool): (Coordinator, Polled) {
    var counted := if c.closing then c
                   else c.(failures := c.failures + 1, health := c.health + [false]);
    if c.data.Some? && (c.closing || counted.failures <= FETCH_STRIKE_LIMIT) then (counted, Served(c.data.value))
    else if why == AuthFailure(true) then (counted, SignIn)
    else if why == Other && paused then (counted.(data := Some(NO_DATA)), Empty)
    else (counted, Raised)
  }

  const NO_DATA := Data("")

  /** One poll from its start to its end, with nothing else in between, and what it returns. */
  function Poll(c: Coordinator, now: real, paused: bool, forced: bool, fetch: Fetch): (Coordinator, Polled) {
    if Skips(c, now, paused, forced) then (c, Served(c.data.value))
    else
      match fetch
      case Fetched(data) => (Succeeded(c, now).(data := Some(data)), Served(data))
      case FetchFailed(why) => Failed(c, why, paused)
      case FailedAfter(why) => Failed(Succeeded(c, now), why, paused)
  }

  const INITIAL := Coordinator(None, None, false, false, 0.0, false, [], 0, None, 0, [], None)

  class OutageCoordinator {
    var window: Option<Window>
    var armed: Option<real>
    var followup: bool
    var awaitingDrop: bool
    var openedMono: real
    var closing: bool
    var history: seq<Record>
    var windows: nat
    var data: Option<Data>
    var failures: nat
    var health: seq<bool>
    var lastSuccess: Option<real>

    function View(): Coordinator
      reads this
    {
      Coordinator(window, armed, followup, awaitingDrop, openedMono, closing, history, windows,
                  data, failures, health, lastSuccess)
    }

    constructor ()
      ensures View() == INITIAL
    {
      window, armed, followup, awaitingDrop, openedMono := None, None, false, false, 0.0;
      closing, history, windows := false, [], 0;
      data, failures, health, lastSuccess := None, 0, [], None;
    }

    method ScheduleOutageCheck(now: real)
      modifies this`armed
      ensures View() == Scheduled(old(View()), now)
    {
      var interval := if awaitingDrop then OUTAGE_PROBE_FAST else OUTAGE_CHECK_INTERVAL;
      armed := Some(now + interval);
    }

    method UpdateLast(r: Record)
      requires history != []
      modifies this`history
      ensures history == WithLast(old(history), r)
    {
      history := history[..|history| - 1] + [r];
    }

    method AppendRecord(r: Record)
      modifies this`history
      ensures history == Appended(old(history), r)
    {
      if |history| >= OUTAGE_HISTORY_CAP { history := history[1..]; }
      history := history + [r];
    }

    method OpenExpectedOutage(reason: Reason, cap: real, now: real)
      modifies this
      ensures View() == Opened(old(View()), reason, cap, now)
    {
      hide Appended;
      window := Some(Window(reason, now + cap));
      followup := false;
      awaitingDrop := reason != Reboot;
      openedMono := now;
      AppendRecord(Record(windows, now, cap, 0, if awaitingDrop then None else Some(now), None, None, None, None));
      windows := windows + 1;
      ScheduleOutageCheck(now);
    }

    method CloseExpectedOutage(how: ClosedBy, now: real)
      modifies this
      ensures View() == Closed(old(View()), how, now)
    {
      hide WithLast;
      armed := None;
      var reason := if window.Some? then Some(window.value.reason) else None;
      window := None;
      awaitingDrop := false;
      if history == [] { return; }
      var record := history[|history| - 1].(closed := Some(now), closedBy := Some(how));
      if how != Cap { record := record.(after := data); }
      UpdateLast(record);
      if how != Cap && reason.Some? && reason.value != Reboot {
        var status := if data.Some? then data.value.pppStatus else "";
        if !Settled(reason.value, status) { followup := true; }
      }
    }

    method StartCheck(now: real) returns (flight: Option<Flight>)
      modifies this
      ensures (View(), flight) == CheckStarted(old(View()), now)
    {
      armed := None;
      if window.None? { return None; }
      if Expired(window.value, now) {
        CloseExpectedOutage(Cap, now);
        return None;
      }
      if history == [] { return Some(Probing(None)); }
      var record := history[|history| - 1];
      UpdateLast(record.(checks := record.checks + 1));
      flight := Some(Probing(Some(record.id)));
    }

    method TakeProbe(record: Option<nat>, answered: bool, now: real) returns (flight: Option<Flight>)
      modifies this
      ensures (View(), flight) == ProbeReturned(old(View()), record, answered, now)
    {
      flight := None;
      if awaitingDrop {
        if !answered {
          awaitingDrop := false;
          history := MarkedDown(history, record, now);
        } else if now - openedMono >= OUTAGE_HOLD {
          closing := true;
          return Some(Closing(NoOutage, lastSuccess, now));
        }
        ScheduleOutageCheck(now);
        return;
      }
      if answered {
        history := MarkedBack(history, record, now);
        closing := true;
        return Some(Closing(Answer, lastSuccess, now));
      }
      ScheduleOutageCheck(now);
    }

    method TakeClosingPoll(how: ClosedBy, before: Option<real>, now: real)
      modifies this
      ensures View() == ClosingReturned(old(View()), how, before, now)
    {
      closing := false;
      if lastSuccess != before {
        CloseExpectedOutage(how, now);
      } else {
        ScheduleOutageCheck(now);
      }
    }

    /** The start of a poll: the values to return without asking the router, if any. */
    method BeginUpdate(now: real, paused: bool, forced: bool) returns (held: Option<Data>)
      ensures held == if Skips(View(), now, paused, forced) then data else None
    {
      held := None;
      if paused && data.Some? && !forced && !closing { return data; }
      if window.Some? && !Expired(window.value, now) && !closing && data.Some? { return data; }
    }

    /** The payload is in. */
    method TakePayload(now: real)
      modifies this`lastSuccess, this`failures, this`health
      ensures View() == Succeeded(old(View()), now)
    {
      lastSuccess := Some(now);
      failures := 0;
      health := health + [true];
    }

    /** The end of a poll that went well. */
    method Deliver(payload: Data) returns (polled: Polled)
      modifies this`data
      ensures View() == old(View()).(data := Some(payload)) && polled == Served(payload)
    {
      data := Some(payload);
      polled := Served(payload);
    }

    /** The end of a poll that did not. */
    method TakeFailure(why: Failure, paused: bool) returns (polled: Polled)
      modifies this`failures, this`health, this`data
      ensures (View(), polled) == Failed(old(View()), why, paused)
    {
      var held := HoldLastValues();
      if held.Some? { return Served(held.value); }
      match why {
        case AuthFailure(rejected) => polled := if rejected then SignIn else Raised;
        case TimedOut => polled := Raised;
        case Other =>
          polled := if paused then Empty else Raised;
          if paused { data := Some(NO_DATA); }
      }
    }

    method UpdateData(now: real, paused: bool, forced: bool, fetch: Fetch) returns (polled: Polled)
      modifies this
      ensures (View(), polled) == Poll(old(View()), now, paused, forced, fetch)
    {
      hide Failed;
      var held := BeginUpdate(now, paused, forced);
      if held.Some? { return Served(held.value); }
      if !fetch.FetchFailed? { TakePayload(now); }
      match fetch {
        case Fetched(payload) => polled := Deliver(payload);
        case FetchFailed(why) => polled := TakeFailure(why, paused);
        case FailedAfter(why) => polled := TakeFailure(why, paused);
      }
    }

    /** Count a failure, and give the values to hold through it, if any. */
    method HoldLastValues() returns (held: Option<Data>)
      modifies this`failures, this`health
      ensures View() == (if closing then old(View())
                         else old(View()).(failures := old(failures) + 1, health := old(health) + [false]))
      ensures held == if data.Some? && (closing || failures <= FETCH_STRIKE_LIMIT) then data else None
    {
      if closing { return data; }
      failures := failures + 1;
      health := health + [false];
      if data.None? || failures > FETCH_STRIKE_LIMIT { return None; }
      held := data;
    }
  }
}
