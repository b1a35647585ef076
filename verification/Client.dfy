/** The API client: sessions made, preempted and renewed around its requests, reads put
    again after a renewal, and writes that never are.

    The router is any function from the number of exchanges so far and the request to an
    answer, so what is proved holds whatever it does. */
module Client {
  import opened Options
  import Session
  import opened Requests
  import opened SessionFlag

  const SESSION_IDLE_RESET_SECONDS := 150.0
  const SESSION_AGE_FLOOR_SECONDS := 30.0
  const SESSION_AGE_LEARN_MIN_SAMPLES := 3
  const SESSION_AGE_LEARN_WINDOW := 10
  const SESSION_AGE_SAFETY := 0.8
  const SESSION_AGE_SAMPLE_EVERY := 10

  /** The smallest of some lifetimes. */
  function Shortest(xs: seq<real>): real
    requires xs != []
  {
    if |xs| == 1 then xs[0]
    else
      var rest := Shortest(xs[..|xs| - 1]);
      if xs[|xs| - 1] < rest then xs[|xs| - 1] else rest
  }

  /** When to replace a session before it ends, once enough sessions have been seen to end. */
  function LearnedAgeLimit(lifetimes: seq<real>): (r: Option<real>)
    ensures r.Some? <==> |lifetimes| >= SESSION_AGE_LEARN_MIN_SAMPLES
    ensures r.Some? ==> r.value >= SESSION_AGE_FLOOR_SECONDS
    ensures r.Some? ==> forall l :: l in lifetimes && r.value > SESSION_AGE_FLOOR_SECONDS ==>
            r.value <= l * SESSION_AGE_SAFETY
  {
    if |lifetimes| < SESSION_AGE_LEARN_MIN_SAMPLES then None
    else
      ShortestIsLeast(lifetimes);
      var limit := Shortest(lifetimes) * SESSION_AGE_SAFETY;
      Some(if limit < SESSION_AGE_FLOOR_SECONDS then SESSION_AGE_FLOOR_SECONDS else limit)
  }

  lemma {:induction false} ShortestIsLeast(xs: seq<real>)
    requires xs != []
    ensures Shortest(xs) in xs && forall x :: x in xs ==> Shortest(xs) <= x
  {
    if |xs| > 1 {
      ShortestIsLeast(xs[..|xs| - 1]);
      assert xs == xs[..|xs| - 1] + [xs[|xs| - 1]];
    }
  }

  function Newest(xs: seq<real>, n: nat): seq<real> { if |xs| > n then xs[|xs| - n..] else xs }

  /** The lifetimes after a session is replaced: any session that lasted long enough counts. */
  function LifetimesAfter(lifetimes: seq<real>, started: Option<real>, now: real): seq<real> {
    if started.None? || now - started.value < SESSION_AGE_FLOOR_SECONDS then lifetimes
    else Newest(lifetimes + [now - started.value], SESSION_AGE_LEARN_WINDOW)
  }

  /** Of a session that lasted long enough the time is kept, last, with those before it that are
      among the newest ten. */
  lemma LifetimesAreNewest(lifetimes: seq<real>, started: real, now: real)
    requires now - started >= SESSION_AGE_FLOOR_SECONDS
    ensures var kept := LifetimesAfter(lifetimes, Some(started), now);
            && |kept| == (if |lifetimes| < 10 then |lifetimes| + 1 else 10) && kept[|kept| - 1] == now - started
            && forall i :: 0 <= i < |kept| - 1 ==> kept[i] == lifetimes[|lifetimes| - (|kept| - 1) + i]
  {
  }

  predicate WithinLearnedAge(lifetimes: seq<real>, started: Option<real>, now: real) {
    var limit := LearnedAgeLimit(lifetimes);
    limit.None? || started.None? || now - started.value <= limit.value
  }

  /** Whether a check of a session's age is one that counts. */
  predicate CountsAge(lifetimes: seq<real>, started: Option<real>) { LearnedAgeLimit(lifetimes).Some? && started.Some? }

  /** Older than sessions were learned to last; one check in ten is let through, to learn on. */
  predicate PastLearnedAge(lifetimes: seq<real>, started: Option<real>, checks: nat, now: real) {
    var limit := LearnedAgeLimit(lifetimes);
    limit.Some? && started.Some? && (checks + 1) % SESSION_AGE_SAMPLE_EVERY != 0 && now - started.value > limit.value
  }

  type Duration = d: real | d >= 0.0 witness 0.0

  class Api {
    const answers: nat -> Call -> Answer
    const replies: nat -> Reply
    const durations: nat -> Duration
    const password: string
    const username: string
    const outageUntil: Option<real>       // the cap of an open window
    const bypass: bool
    const measured: set<string>           // the keys taken to need no session
    const flagKey: string                 // the reading that says whether a session is logged in,
    const flagOk: string                  // and its value when it is
    const witnesses: seq<string>          // the readings asked for where the flag says nothing
    const companion: seq<string>          // and one that needs no session
    const exempt: set<string>             // the commands that carry no token

    var log: Log
    var clock: real
    var sessionActive: bool
    var lastActivity: real
    var sessionStarted: Option<real>
    var sessionLifetimes: seq<real>
    var ageChecks: nat
    var attemptsLeft: Option<int>
    var lockSeconds: Option<int>
    var beliefs: Beliefs
    var lastCheck: LastCheck

    /** A session made at this very instant. */
    ghost predicate JustMade()
      reads this
    {
      sessionActive && lastActivity == clock && sessionStarted == Some(clock)
    }

    /** A session neither idle nor older than sessions were learned to last. */
    ghost predicate Standing()
      reads this
    {
      sessionActive && clock - lastActivity <= SESSION_IDLE_RESET_SECONDS
      && WithinLearnedAge(sessionLifetimes, sessionStarted, clock)
    }

    predicate OutageNow()
      reads this
    {
      outageUntil.Some? && clock < outageUntil.value && !bypass
    }

    /** What the router answered a call with, as the log has it from an exchange on. */
    ghost predicate FromRouter(answer: Answer, call: Call, from: nat, upTo: Log) {
      exists n: nat :: from <= n < |upTo| && upTo[n] == Sent(call, answer) && answers(n)(call) == answer
    }

    /** The answers to a call, or to the call put again. */
    ghost predicate AllFromRouter(a: seq<Answer>, call: Call, from: nat, upTo: Log) {
      forall x :: x in a ==> FromRouter(x, call, from, upTo) || FromRouter(x, Again(call), from, upTo)
    }

    /** The latest login on a log failed, and with this error. */
    ghost predicate LoginFailed(upTo: Log, error: Error) {
      LoginIs(Err(error), Newer(BeforeLogin(upTo), upTo, Open), NewReplies(BeforeLogin(upTo), upTo), password)
    }

    predicate MayRefuse() { outageUntil.Some? && !bypass }

    /** One request on the log, and what came of it: put twice at most, with a login before each
        try at most.  Its outcome is that of the answers, or, where it was not put, or not put again
        though an answer called for it, the error of the login that failed before that; or it was
        refused in an outage. */
    ghost predicate PutAs(call: Call, r: Outcome, begun: Log, ended: Log) {
      var a := Newer(begun, ended, call.purpose);
      && OnlyOf(begun, ended, call.purpose) && Answers(begun, call.purpose) <= Answers(ended, call.purpose)
      && AllFromRouter(a, call, |begun|, ended) && Explains(call, a, r, measured)
      && Logins(ended) <= Logins(begun) + 2
      && (a == [] ==>
            || (Logins(ended) == Logins(begun) + 1 && Sessions(ended) == Sessions(begun))
            || (ended == begun && MayRefuse() && r == Err(OutageRefused)))
      && (ended != begun && LeftToLogin(call, a, measured) ==> r.Err? && LoginFailed(ended, r.error))
    }

    ghost predicate WasAsked(call: Call, begun: Log, ended: Log) {
      exists r: Outcome :: PutAs(call, r, begun, ended)
    }

    function WitnessCall(): Call { SessionCall("witnesses", Some(witnesses + companion), false, false) }

    /** The witnesses were asked for, where there are any, and this is what they said. */
    ghost predicate WitnessesSay(reading: Option<Session.Verdict>, begun: Log, ended: Log) {
      && (if witnesses == [] then ended == begun else WasAsked(WitnessCall(), begun, ended))
      && reading == ReadingIn(Newer(begun, ended, WITNESSES), WitnessCall(), measured)
    }

    constructor (answers: nat -> Call -> Answer, replies: nat -> Reply, durations: nat -> Duration, password: string,
                 username: string, outageUntil: Option<real>, bypass: bool, measured: set<string>,
                 flagKey: string, flagOk: string, witnesses: seq<string>, companion: seq<string>, exempt: set<string>)
      ensures log == [] && clock == 0.0 && !sessionActive && lastActivity == 0.0 && sessionStarted.None?
      ensures sessionLifetimes == [] && attemptsLeft.None? && lockSeconds.None?
      ensures beliefs == Beliefs(None, None, None) && lastCheck == Unchecked
      ensures this.answers == answers && this.replies == replies && this.durations == durations
      ensures this.outageUntil == outageUntil && this.bypass == bypass && this.password == password
      ensures this.flagKey == flagKey && this.flagOk == flagOk && this.measured == measured
              && this.witnesses == witnesses
    {
      this.answers, this.replies, this.durations := answers, replies, durations;
      this.password, this.username, this.outageUntil, this.bypass := password, username, outageUntil, bypass;
      this.measured, this.flagKey, this.flagOk := measured, flagKey, flagOk;
      this.witnesses, this.companion, this.exempt := witnesses, companion, exempt;
      log, clock, sessionActive, lastActivity, sessionStarted := [], 0.0, false, 0.0, None;
      sessionLifetimes, ageChecks, attemptsLeft, lockSeconds := [], 0, None, None;
      beliefs, lastCheck := Beliefs(None, None, None), Unchecked;
    }

    // ----- the wire -------------------------------------------------------------------

    method Exchange(call: Call) returns (answer: Answer)
      modifies this`log, this`clock, this`sessionActive
      ensures answer == answers(|old(log)|)(call) && log == old(log) + [Sent(call, answer)]
      ensures clock == old(clock) + durations(|old(log)|) >= old(clock)
      ensures sessionActive == (old(sessionActive) && !(answer.Lost? && call.authenticated))
      ensures Answers(log, call.purpose) == Answers(old(log), call.purpose) + [answer]
      ensures OnlyOf(old(log), log, call.purpose)
      ensures !call.purpose.Open? ==> Answers(log, Open) == Answers(old(log), Open)
      ensures Writes(log) == Writes(old(log)) + if call.purpose.Write? then 1 else 0
      ensures Logins(log) == Logins(old(log)) && Rejected(log) == Rejected(old(log))
      ensures Forms(log) == Forms(old(log)) && Sessions(log) == Sessions(old(log)) && Raises(log) == Raises(old(log))
      ensures Replies(log) == Replies(old(log))
    {
      answer := answers(|log|)(call);
      clock := clock + durations(|log|);
      Appended(log, Sent(call, answer));
      log := log + [Sent(call, answer)];
      if answer.Lost? && call.authenticated {
        sessionActive := false;
      }
    }

    method NoteSessionReplaced()
      modifies this`sessionLifetimes
      ensures sessionLifetimes == LifetimesAfter(old(sessionLifetimes), sessionStarted, clock)
    {
      if sessionStarted.None? { return; }
      var lasted := clock - sessionStarted.value;
      if lasted < SESSION_AGE_FLOOR_SECONDS { return; }
      sessionLifetimes := sessionLifetimes + [lasted];
      if |sessionLifetimes| > SESSION_AGE_LEARN_WINDOW {
        sessionLifetimes := sessionLifetimes[|sessionLifetimes| - SESSION_AGE_LEARN_WINDOW..];
      }
    }

    method SessionIsPastItsLearnedAge() returns (past: bool)
      modifies this`ageChecks
      ensures past == PastLearnedAge(sessionLifetimes, sessionStarted, old(ageChecks), clock)
      ensures ageChecks == old(ageChecks) + if CountsAge(sessionLifetimes, sessionStarted) then 1 else 0
    {
      var limit := LearnedAgeLimit(sessionLifetimes);
      if limit.None? || sessionStarted.None? { return false; }
      ageChecks := ageChecks + 1;
      if ageChecks % SESSION_AGE_SAMPLE_EVERY == 0 { return false; }
      past := clock - sessionStarted.value > limit.value;
    }

    /** Replace a session that has probably ended; never one made this instant. */
    method PreemptStaleSession(authenticated: bool)
      modifies this`sessionActive, this`ageChecks
      ensures sessionActive == (old(sessionActive) &&
                !(authenticated && (PastLearnedAge(sessionLifetimes, sessionStarted, old(ageChecks), clock)
                                    || clock - lastActivity > SESSION_IDLE_RESET_SECONDS)))
      ensures ageChecks == old(ageChecks)
                           + if authenticated && old(sessionActive) && CountsAge(sessionLifetimes, sessionStarted)
                             then 1 else 0
      ensures old(JustMade()) ==> sessionActive
    {
      if !(authenticated && sessionActive) { return; }
      var past := SessionIsPastItsLearnedAge();
      if past {
        sessionActive := false;
        return;
      }
      if clock - lastActivity > SESSION_IDLE_RESET_SECONDS {
        sessionActive := false;
      }
    }

    // ----- login -----------------------------------------------------------------------

    /** One login form. */
    method AttemptLogin() returns (reply: Reply)
      modifies this`log, this`clock
      ensures OnlyOpen(old(log), log) && reply == replies(|old(log)|)
      ensures log == old(log) + [Form(reply)] + if Established(reply) then [Activation] else []
      ensures Answers(log, Open) == Answers(old(log), Open) && clock >= old(clock)
      ensures Raises(log) == Raises(old(log)) + if reply.Raised? then 1 else 0
      ensures Forms(log) == Forms(old(log)) + 1 && Logins(log) == Logins(old(log))
      ensures Replies(log) == Replies(old(log)) + [reply]
      ensures Rejected(log) == Rejected(old(log)) + if Rejection(reply) then 1 else 0
      ensures Sessions(log) == Sessions(old(log)) + if Established(reply) then 1 else 0
    {
      hide Logins, Forms, Replies, Sessions, Rejected, Writes, Answers, Raises;
      reply := replies(|log|);
      clock := clock + durations(|log|);
      Appended(log, Form(reply));
      log := log + [Form(reply)];
      if Established(reply) {
        clock := clock + durations(|log|);
        Appended(log, Activation);
        log := log + [Activation];
      }
    }

    /** A read that needs no session and never makes one. */
    method OpenRead() returns (r: Outcome)
      modifies this
      ensures unchanged(this`beliefs, this`lastCheck, this`sessionActive, this`lastActivity, this`sessionStarted)
      ensures unchanged(this`sessionLifetimes, this`attemptsLeft, this`lockSeconds)
      ensures OnlyOpen(old(log), log) && clock >= old(clock)
      ensures Logins(log) == Logins(old(log)) && Forms(log) == Forms(old(log)) && Replies(log) == Replies(old(log))
      ensures Rejected(log) == Rejected(old(log)) && Sessions(log) == Sessions(old(log))
      ensures |Answers(log, Open)| == |Answers(old(log), Open)| + if old(OutageNow()) then 0 else 1
      ensures AllFromRouter(Newer(old(log), log, Open), OPEN_READ, |old(log)|, log)
      ensures r == Ok(None) <==> Escapes(old(log), log)
      ensures r == OpenOutcome(Newer(old(log), log, Open))
      ensures |Newer(old(log), log, Open)| == if old(OutageNow()) then 0 else 1
      ensures r.Err? ==> r.error in {Connection, OutageRefused}
      ensures old(OutageNow()) ==> r == Err(OutageRefused) && log == old(log) && clock == old(clock)
      decreases 3
    {
      hide Logins, Forms, Replies, Sessions, Rejected, Writes, Answers, Raises, AllFromRouter;
      r := Perform(OPEN_READ);
      OpenExplained(Newer(old(log), log, Open), r, measured);
    }

    /** The firmware version, empty where it could not be read, and the login counters. */
    method GetVersion() returns (e: Option<Error>, version: string)
      modifies this
      ensures unchanged(this`beliefs, this`lastCheck, this`sessionActive, this`lastActivity, this`sessionStarted)
      ensures unchanged(this`sessionLifetimes)
      ensures OnlyOpen(old(log), log)
      ensures Logins(log) == Logins(old(log)) && Forms(log) == Forms(old(log)) && Replies(log) == Replies(old(log))
      ensures Rejected(log) == Rejected(old(log)) && Sessions(log) == Sessions(old(log))
      ensures clock >= old(clock)
      ensures |Answers(log, Open)| == |Answers(old(log), Open)| + if old(OutageNow()) then 0 else 1
      ensures AllFromRouter(Newer(old(log), log, Open), OPEN_READ, |old(log)|, log)
      ensures old(OutageNow()) ==> clock == old(clock)
      ensures |Newer(old(log), log, Open)| == if old(OutageNow()) then 0 else 1
      ensures var a := Newer(old(log), log, Open);
              if a != [] && a[0].Body?
              then Guard(attemptsLeft, lockSeconds) == GuardOf(a[0]) && version == VersionIn(a[0])
              else attemptsLeft == old(attemptsLeft) && lockSeconds == old(lockSeconds) && version == ""
      ensures e.None? || e == Some(Unexpected)
      ensures e.Some? <==> Escapes(old(log), log)
      ensures e.Some? <==> Newer(old(log), log, Open) == [NotObject]
      decreases 4
    {
      hide Logins, Forms, Replies, Sessions, Rejected, Writes, Answers, Raises, GuardInt, FirstSpelling, AllFromRouter;
      e, version := None, "";
      var r := OpenRead();
      if r.Err? { return; }
      if r.body.None? { return Some(Unexpected), ""; }
      attemptsLeft := GuardInt(r.body.value, "psw_fail_num_str");
      lockSeconds := GuardInt(r.body.value, "login_lock_time");
      version := FirstSpelling(r.body.value, VERSIONS);
    }

    lemma MoreFromRouter(before: Log, mid: Log, after: Log)
      requires Extends(before, mid) && Extends(mid, after)
      requires AllFromRouter(Newer(before, mid, Open), OPEN_READ, |before|, mid)
      requires AllFromRouter(Newer(mid, after, Open), OPEN_READ, |mid|, after)
      ensures AllFromRouter(Newer(before, after, Open), OPEN_READ, |before|, after)
    {
      hide Logins, Sessions, Rejected, Writes, Answers, Raises;
      assert Newer(before, after, Open) == Newer(before, mid, Open) + Newer(mid, after, Open);
      WiderFromRouter(Newer(before, mid, Open), OPEN_READ, |before|, mid, |before|, after);
      WiderFromRouter(Newer(mid, after, Open), OPEN_READ, |mid|, after, |before|, after);
      hide Newer, FromRouter;
    }

    lemma WiderFromRouter(a: seq<Answer>, call: Call, from: nat, upTo: Log, from2: nat, upTo2: Log)
      requires AllFromRouter(a, call, from, upTo) && from2 <= from && upTo <= upTo2
      ensures AllFromRouter(a, call, from2, upTo2)
    {
      forall x | x in a ensures FromRouter(x, call, from2, upTo2) || FromRouter(x, Again(call), from2, upTo2) {
        var put := if FromRouter(x, call, from, upTo) then call else Again(call);
        assert FromRouter(x, put, from, upTo);
        var n: nat :| from <= n < |upTo| && upTo[n] == Sent(put, x) && answers(n)(put) == x;
        assert upTo2[n] == upTo[n];
      }
    }

    /** The challenge, and the version with the login counters. */
    method ReadGuard() returns (e: Option<Error>, version: string)
      modifies this
      ensures unchanged(this`beliefs, this`lastCheck, this`sessionActive, this`sessionStarted, this`sessionLifetimes)
      ensures OnlyOpen(old(log), log) && clock >= old(clock)
      ensures Logins(log) == Logins(old(log)) && Forms(log) == Forms(old(log)) && Replies(log) == Replies(old(log))
      ensures Rejected(log) == Rejected(old(log)) && Sessions(log) == Sessions(old(log))
      ensures AllFromRouter(Newer(old(log), log, Open), OPEN_READ, |old(log)|, log)
      ensures e.Some? ==> e.value in {Unexpected, Connection, OutageRefused}
      ensures e == Some(Unexpected) <==> Escapes(old(log), log)
      ensures !old(OutageNow()) ==> |Answers(log, Open)| >= |Answers(old(log), Open)| + 1
      ensures e == ReadObstacle(Newer(old(log), log, Open)) && (e.None? ==> !old(OutageNow()))
      ensures |Newer(old(log), log, Open)| == 2 ==> version == VersionIn(Newer(old(log), log, Open)[1])
      ensures var a := Newer(old(log), log, Open);
              a == [] || if a[0].Body? then |a| == 2 else |a| == 1
      ensures var a := Newer(old(log), log, Open);
              && (!old(OutageNow()) ==> 1 <= |a|) && |a| <= 2 && (e.None? ==> |a| == 2)
              && (|a| == 2 ==> Guard(attemptsLeft, lockSeconds) == GuardOf(a[1]))
              && (e.Some? ==> !Forbidden(a))
      decreases 5, 0
    {
      hide Logins, Forms, Replies, Sessions, Rejected, Writes, Answers, Raises, GuardInt, FirstSpelling;
      hide FromRouter, Escapes, Newer;
      version := "";
      var r := OpenRead();                               // the challenge
      ghost var challenged := log;
      if r.Err? { return Some(r.error), version; }
      if r.body.None? { return Some(Unexpected), version; }
      attemptsLeft, lockSeconds := None, None;
      e, version := GetVersion();
      NewerInParts(old(log), challenged, log, Open);
      EscapesInParts(old(log), challenged, log);
      MoreFromRouter(old(log), challenged, log);
    }

    /** What comes before the form: the challenge, the version and the login counters. */
    method PrepareLogin() returns (e: Option<Error>)
      modifies this
      ensures beliefs == old(beliefs) && lastCheck == old(lastCheck)
      ensures OnlyOpen(old(log), log)
      ensures Logins(log) == Logins(old(log)) && Forms(log) == Forms(old(log)) && Replies(log) == Replies(old(log))
      ensures Rejected(log) == Rejected(old(log)) && Sessions(log) == Sessions(old(log))
      ensures sessionActive == old(sessionActive)
      ensures sessionStarted == old(sessionStarted) && sessionLifetimes == old(sessionLifetimes)
      ensures e.Some? ==> e.value in {Unexpected, Connection, Credentials, LoginRefused, OutageRefused}
      ensures e == Some(Credentials) ==> password == ""
      ensures e.None? ==> password != "" && |Newer(old(log), log, Open)| >= 2
      ensures e == Some(LoginRefused) <==> Forbidden(Newer(old(log), log, Open))
      ensures e == Obstacle(Newer(old(log), log, Open), password)
      ensures ReadsAsNeeded(Newer(old(log), log, Open), username, password)
      ensures |Newer(old(log), log, Open)| >= 2 ==>
                Guard(attemptsLeft, lockSeconds) == GuardOf(Newer(old(log), log, Open)[1])
      ensures !old(OutageNow()) ==> |Answers(log, Open)| >= |Answers(old(log), Open)| + 1
      ensures AllFromRouter(Newer(old(log), log, Open), OPEN_READ, |old(log)|, log)
      ensures e == Some(Unexpected) <==> Escapes(old(log), log)
      ensures clock >= old(clock)
      decreases 5, 1
    {
      hide Logins, Forms, Replies, Sessions, Rejected, Writes, Answers, Raises, FirstSpelling, FromRouter, Escapes;
      hide GuardOf, VersionIn, Obstacle, ReadObstacle, ReadsAsNeeded, Newer;
      var version;
      e, version := ReadGuard();
      ghost var a := Newer(old(log), log, Open);
      if e.Some? {
        NoObstacleIn(a, username, password);
        return;
      }
      AfterTwoReads(a, username, password);
      ghost var guarded := log;
      var running := attemptsLeft == Some(0) && lockSeconds.Some? && lockSeconds.value > 0;
      if attemptsLeft == Some(1) || running { return Some(LoginRefused); }
      if password == "" { return Some(Credentials); }
      if username != "" && version != "" {
        var r := OpenRead();                             // for the multi-user form
        NewerInParts(old(log), guarded, log, Open);
        EscapesInParts(old(log), guarded, log);
        MoreFromRouter(old(log), guarded, log);
        assert Newer(old(log), log, Open) == a + [Newer(guarded, log, Open)[0]];
        if r.Ok? && r.body.None? { return Some(Unexpected); }
      }
      e := None;
    }

    /** Up to two forms; the second only where the first was neither taken nor rejected. */
    method SubmitForms() returns (e: Option<Error>)
      modifies this`log, this`clock
      ensures OnlyOpen(old(log), log)
      ensures Answers(log, Open) == Answers(old(log), Open) && clock >= old(clock)
      ensures Logins(log) == Logins(old(log)) && Forms(log) <= Forms(old(log)) + 2
      ensures Raises(log) == Raises(old(log)) + if e == Some(Unexpected) then 1 else 0
      ensures Sessions(log) == Sessions(old(log)) + if e.None? then 1 else 0
      ensures Rejected(log) == Rejected(old(log)) + if e == Some(Credentials) then 1 else 0
      ensures e.None? || e == Some(Connection) || e == Some(Credentials) || e == Some(Unexpected)
      ensures e == Some(Connection) ==> Forms(log) == Forms(old(log)) + 2 || replies(|old(log)|).NoReply?
      ensures Replies(old(log)) <= Replies(log)
      ensures var f := NewReplies(old(log), log);
              && 1 <= |f| == Forms(log) - Forms(old(log)) && f[0] == replies(|old(log)|)
              && (|f| == 2 <==> NoVerdict(f[0])) && e == FormsOutcome(f)
    {
      hide Logins, Forms, Replies, Sessions, Rejected, Writes, Answers, Raises;
      var reply := AttemptLogin();
      if reply.NoReply? { return Some(Connection); }
      if reply.Raised? { return Some(Unexpected); }
      if !Established(reply) && !Rejection(reply) {
        reply := AttemptLogin();                          // the other form, once
        if reply.NoReply? { return Some(Connection); }
        if reply.Raised? { return Some(Unexpected); }
      }
      if Rejection(reply) { return Some(Credentials); }
      if !Established(reply) { return Some(Connection); }
      e := None;
    }

    /** The only place a session is made. */
    method Login() returns (r: Outcome)
      modifies this
      ensures beliefs == old(beliefs) && lastCheck == old(lastCheck)
      ensures OnlyOpen(old(log), log)
      ensures Logins(log) == Logins(old(log)) + if old(OutageNow()) then 0 else 1
      ensures Forms(log) <= Forms(old(log)) + 2
      ensures LoginPut(r, old(log), log) && (!old(OutageNow()) ==> BeforeLogin(log) == old(log))
      ensures Forms(log) > Forms(old(log)) ==>
                |Newer(old(log), log, Open)| >= 2 && !Forbidden(Newer(old(log), log, Open))
      ensures LoginIs(r, Newer(old(log), log, Open), NewReplies(old(log), log), password)
      ensures ReadsAsNeeded(Newer(old(log), log, Open), username, password)
      ensures if r.Ok? then sessionLifetimes == LifetimesAfter(old(sessionLifetimes), old(sessionStarted), clock)
              else unchanged(this`sessionStarted, this`sessionLifetimes)
      ensures |NewReplies(old(log), log)| == Forms(log) - Forms(old(log))
      ensures r == Err(LoginRefused) <==> Forbidden(Newer(old(log), log, Open))
      ensures Sessions(log) == Sessions(old(log)) + if r.Ok? then 1 else 0
      ensures if r.Ok? then JustMade() && r == Ok(None)
              else r.error in {Unexpected, Connection, Credentials, LoginRefused, OutageRefused}
      ensures Rejected(log) == Rejected(old(log)) + if r == Err(Credentials) && password != "" then 1 else 0
      ensures old(OutageNow()) ==> r == Err(OutageRefused) && log == old(log) && clock == old(clock)
      ensures old(OutageNow()) ==> sessionActive == old(sessionActive)
      ensures old(OutageNow()) ==> unchanged(this`sessionStarted, this`sessionLifetimes, this`lastActivity)
      ensures r == Err(LoginRefused) ==> Forms(log) == Forms(old(log))
      ensures r.Err? && !old(OutageNow()) ==> !sessionActive
      ensures !old(OutageNow()) ==> |Answers(log, Open)| >= |Answers(old(log), Open)| + 1
      ensures AllFromRouter(Newer(old(log), log, Open), OPEN_READ, |old(log)|, log)
      ensures r == Err(Unexpected) <==> Escapes(old(log), log)
      ensures clock >= old(clock)
      decreases 6, 1
    {
      hide Logins, Forms, Replies, Sessions, Rejected, Writes, Answers, Raises, FromRouter;
      if OutageNow() { return Err(OutageRefused); }
      Appended(log, LoginBegun);
      log := log + [LoginBegun];
      ghost var begun := log;
      sessionActive := false;
      hide Escapes, Newer, AllFromRouter;
      r := MakeSession();
      OnlyBetween(old(log), begun, log, log);
      LatestLogin(old(log), log);
      WiderFromRouter(Newer(begun, log, Open), OPEN_READ, |begun|, log, |old(log)|, log);
    }

    lemma EscapesInForms(before: Log, prepared: Log, after: Log)
      requires Extends(before, prepared) && Extends(prepared, after) && !Escapes(before, prepared)
      requires Answers(prepared, Open) == Answers(after, Open)
      ensures Escapes(before, after) <==> Raises(prepared) < Raises(after)
    {
      hide Answers, Raises;
      EscapesInParts(before, prepared, after);
    }

    method MakeSession() returns (r: Outcome)
      requires !sessionActive
      modifies this
      ensures beliefs == old(beliefs) && lastCheck == old(lastCheck)
      ensures OnlyOpen(old(log), log) && clock >= old(clock)
      ensures Logins(log) == Logins(old(log)) && Forms(log) <= Forms(old(log)) + 2
      ensures Forms(log) > Forms(old(log)) ==>
                |Newer(old(log), log, Open)| >= 2 && !Forbidden(Newer(old(log), log, Open))
      ensures LoginIs(r, Newer(old(log), log, Open), NewReplies(old(log), log), password)
      ensures ReadsAsNeeded(Newer(old(log), log, Open), username, password)
      ensures if r.Ok? then sessionLifetimes == LifetimesAfter(old(sessionLifetimes), old(sessionStarted), clock)
              else unchanged(this`sessionStarted, this`sessionLifetimes)
      ensures |NewReplies(old(log), log)| == Forms(log) - Forms(old(log))
      ensures r == Err(LoginRefused) <==> Forbidden(Newer(old(log), log, Open))
      ensures Sessions(log) == Sessions(old(log)) + if r.Ok? then 1 else 0
      ensures if r.Ok? then JustMade() && r == Ok(None)
              else !sessionActive && r.error in {Unexpected, Connection, Credentials, LoginRefused, OutageRefused}
      ensures Rejected(log) == Rejected(old(log)) + if r == Err(Credentials) && password != "" then 1 else 0
      ensures r == Err(LoginRefused) ==> Forms(log) == Forms(old(log))
      ensures !old(OutageNow()) ==> |Answers(log, Open)| >= |Answers(old(log), Open)| + 1
      ensures AllFromRouter(Newer(old(log), log, Open), OPEN_READ, |old(log)|, log)
      ensures r == Err(Unexpected) <==> Escapes(old(log), log)
      decreases 6, 0
    {
      hide Logins, Forms, Replies, Sessions, Rejected, Writes, Answers, Raises, Escapes, Newer, AllFromRouter;
      var e := PrepareLogin();
      if e.Some? { return Err(e.value); }
      ghost var prepared := log;
      e := SubmitForms();
      EscapesInForms(old(log), prepared, log);
      NothingAfter(old(log), prepared, log, Open);
      WiderFromRouter(Newer(old(log), prepared, Open), OPEN_READ, |old(log)|, prepared, |old(log)|, log);
      if e.Some? { return Err(e.value); }
      sessionActive := true;
      lastActivity := clock;
      NoteSessionReplaced();
      sessionStarted := Some(lastActivity);
      r := Ok(None);
    }

    // ----- one request ------------------------------------------------------------------

    /** Refuse, or see that a session is there for a request that needs one. */
    method Prepare(authenticated: bool) returns (e: Option<Error>)
      modifies this
      ensures beliefs == old(beliefs) && lastCheck == old(lastCheck)
      ensures OnlyOpen(old(log), log)
      ensures Logins(log) <= Logins(old(log)) + if authenticated && !old(JustMade()) then 1 else 0
      ensures Forms(log) <= Forms(old(log)) + 2 * (Logins(log) - Logins(old(log)))
      ensures Sessions(log) - Sessions(old(log)) == if e.None? then Logins(log) - Logins(old(log)) else 0
      ensures e.None? && authenticated ==> sessionActive
      ensures e.None? && authenticated && old(!sessionActive || clock - lastActivity > SESSION_IDLE_RESET_SECONDS) ==>
                Sessions(log) > Sessions(old(log))
      ensures e.Some? ==> (authenticated || e == Some(OutageRefused)) && e.value !in {Auth, WriteRefused}
      ensures e.Some? && !old(OutageNow()) ==>
              Logins(log) == Logins(old(log)) + 1 && Sessions(log) == Sessions(old(log)) && LoginFailed(log, e.value)
      ensures e == Some(Credentials) ==> Rejected(log) > Rejected(old(log)) || password == ""
      ensures old(OutageNow()) ==> e == Some(OutageRefused) && log == old(log) && clock == old(clock)
      ensures old(JustMade() || Standing()) || !authenticated ==> log == old(log) && clock == old(clock)
      ensures old(JustMade() || Standing()) || !authenticated ==> (e.Some? <==> old(OutageNow()))
      ensures Logins(log) == Logins(old(log)) ==>
                unchanged(this`sessionStarted, this`sessionLifetimes, this`lastActivity)
      ensures !authenticated ==> unchanged(this`sessionActive, this`lastActivity, this`sessionStarted)
      ensures !authenticated ==> unchanged(this`sessionLifetimes, this`attemptsLeft, this`lockSeconds)
      ensures e == Some(Unexpected) <==> Escapes(old(log), log)
      ensures clock >= old(clock)
      decreases if authenticated then 7 else 0
    {
      hide Logins, Forms, Replies, Sessions, Rejected, Writes, Answers, Raises, Escapes, AllFromRouter;
      NothingEscapes(log, log);
      if OutageNow() { return Some(OutageRefused); }
      PreemptStaleSession(authenticated);
      if authenticated && !sessionActive {
        var r := Login();
        if r.Err? { return Some(r.error); }
      }
      e := None;
    }

    /** Prepare the session, put the request, and dispose of the answer.

        However the router answers, a read goes out at most twice with at most two logins,
        and a write once; the outcome is the one its last answer leads to. */
    method Perform(call: Call) returns (r: Outcome)
      requires call.purpose.Open? <==> !call.authenticated
      modifies this
      ensures beliefs == old(beliefs) && lastCheck == old(lastCheck)
      ensures OnlyOf(old(log), log, call.purpose)
      ensures Answers(old(log), call.purpose) <= Answers(log, call.purpose)
      ensures Explains(call, Newer(old(log), log, call.purpose), r, measured)
      ensures AllFromRouter(Newer(old(log), log, call.purpose), call, |old(log)|, log)
      ensures old(JustMade() && !OutageNow()) ==>
                Newer(old(log), log, call.purpose) != []
                && Newer(old(log), log, call.purpose)[0] == answers(|old(log)|)(call)
      ensures |Newer(old(log), log, call.purpose)| == 2 ==> Logins(log) > Logins(old(log))
      ensures old(Standing() && !OutageNow()) ==>
                var a := Newer(old(log), log, call.purpose);
                a != [] && (Disposed(call, a[0], measured).Finish? ==> Logins(log) == Logins(old(log)))
      ensures Logins(log) == Logins(old(log)) ==> unchanged(this`sessionStarted, this`sessionLifetimes)
      ensures r.Ok? && call.authenticated ==> sessionActive
      ensures call.authenticated ==> (r == Err(Unexpected) <==> Escapes(old(log), log))
      ensures !call.authenticated ==> Sessions(log) == Sessions(old(log)) && Rejected(log) == Rejected(old(log))
      ensures !call.authenticated ==> Raises(log) == Raises(old(log))
      ensures !call.authenticated ==> Replies(log) == Replies(old(log))
      ensures !call.authenticated ==>
              Forms(log) == Forms(old(log)) && (r.Err? ==> r.error in {Connection, OutageRefused})
      ensures !call.authenticated ==> unchanged(this`sessionActive, this`lastActivity, this`sessionStarted)
      ensures !call.authenticated ==> unchanged(this`sessionLifetimes, this`attemptsLeft, this`lockSeconds)
      ensures Newer(old(log), log, call.purpose) == [] && !old(OutageNow()) ==>
                Logins(log) == Logins(old(log)) + 1 && Sessions(log) == Sessions(old(log))
      ensures call.authenticated && Newer(old(log), log, call.purpose) != []
              && old(!sessionActive || clock - lastActivity > SESSION_IDLE_RESET_SECONDS) ==>
                Sessions(log) > Sessions(old(log))
      ensures Logins(log) <= Logins(old(log)) + if !call.authenticated then 0 else if Replayable(call) then 2 else 1
      ensures LeftToLogin(call, Newer(old(log), log, call.purpose), measured) && !old(OutageNow()) ==>
                r.Err? && LoginFailed(log, r.error)
      ensures old(JustMade()) ==> Logins(log) <= Logins(old(log)) + if Replayable(call) then 1 else 0
      ensures Writes(log) == Writes(old(log)) + if call.purpose.Write? then |Newer(old(log), log, call.purpose)| else 0
      ensures Sessions(log) - Sessions(old(log)) <= Logins(log) - Logins(old(log))
      ensures r == Err(Credentials) ==> Rejected(log) > Rejected(old(log)) || password == ""
      ensures old(OutageNow()) ==> r == Err(OutageRefused) && log == old(log) && clock == old(clock)
      ensures r.Ok? && call.authenticated ==> lastActivity == clock
      ensures r != Err(WriteRefused) && clock >= old(clock)
      decreases if !call.authenticated then 1 else if Replayable(call) then 10 else 8, 1
    {
      hide Logins, Forms, Replies, Sessions, Rejected, Writes;
      hide Answers, Raises, Disposed, FromRouter, Escapes, LoginFailed;
      var e, answer := Attempt(call);
      ghost var asked := log;
      if e.Some? { return Err(e.value); }
      var next := Disposed(call, answer, measured);
      match next {
        case Finish(outcome) =>
          FinishesWithoutRefusal(call, answer, measured);
          r := outcome;
          if r.Ok? && call.authenticated { lastActivity := clock; }
        case Renewal =>
          RenewsOnlyReads(call, answer, measured);
          r := ReplayAfterLogin(call);
          EscapesInParts(old(log), asked, log);
          NewerInParts(old(log), asked, log, call.purpose);
          WiderFromRouter([answer], call, |old(log)|, asked, |old(log)|, log);
          WiderFromRouter(Newer(asked, log, call.purpose), call, |asked|, log, |old(log)|, log);
      }
    }

    /** The first try of a request: see to the session, and put it. */
    method Attempt(call: Call) returns (e: Option<Error>, answer: Answer)
      requires call.purpose.Open? <==> !call.authenticated
      modifies this
      ensures beliefs == old(beliefs) && lastCheck == old(lastCheck)
      ensures OnlyOf(old(log), log, call.purpose) && clock >= old(clock)
      ensures Answers(old(log), call.purpose) <= Answers(log, call.purpose)
      ensures Newer(old(log), log, call.purpose) == if e.None? then [answer] else []
      ensures e.None? ==> AllFromRouter([answer], call, |old(log)|, log)
      ensures old(JustMade() && !OutageNow()) ==> e.None? && answer == answers(|old(log)|)(call)
      ensures old(Standing() && !OutageNow()) ==> e.None? && Logins(log) == Logins(old(log))
      ensures Logins(log) == Logins(old(log)) ==>
                unchanged(this`sessionStarted, this`sessionLifetimes, this`lastActivity)
      ensures e.None? && call.authenticated && !answer.Lost? ==> sessionActive
      ensures e.Some? && !old(OutageNow()) ==>
              Logins(log) == Logins(old(log)) + 1 && Sessions(log) == Sessions(old(log)) && LoginFailed(log, e.value)
      ensures e.None? && call.authenticated
              && old(!sessionActive || clock - lastActivity > SESSION_IDLE_RESET_SECONDS) ==>
                Sessions(log) > Sessions(old(log))
      ensures Logins(log) <= Logins(old(log)) + if call.authenticated && !old(JustMade()) then 1 else 0
      ensures Sessions(log) - Sessions(old(log)) <= Logins(log) - Logins(old(log))
      ensures Writes(log) == Writes(old(log)) + if call.purpose.Write? && e.None? then 1 else 0
      ensures e.Some? ==> e.value !in {Auth, WriteRefused} && (call.authenticated || e == Some(OutageRefused))
      ensures e == Some(Credentials) ==> Rejected(log) > Rejected(old(log)) || password == ""
      ensures call.authenticated ==> (e == Some(Unexpected) <==> Escapes(old(log), log))
      ensures !call.authenticated ==> Sessions(log) == Sessions(old(log)) && Rejected(log) == Rejected(old(log))
      ensures !call.authenticated ==> Forms(log) == Forms(old(log)) && Raises(log) == Raises(old(log))
      ensures !call.authenticated ==> Replies(log) == Replies(old(log))
      ensures !call.authenticated ==> unchanged(this`sessionActive, this`lastActivity, this`sessionStarted)
      ensures !call.authenticated ==> unchanged(this`sessionLifetimes, this`attemptsLeft, this`lockSeconds)
      ensures old(OutageNow()) ==> e == Some(OutageRefused) && log == old(log) && clock == old(clock)
      decreases if !call.authenticated then 1 else 8, 0
    {
      hide Logins, Forms, Replies, Sessions, Rejected, Writes;
      hide Answers, Raises, FromRouter, Escapes, PastLearnedAge, LoginFailed;
      answer := Lost;
      e := Prepare(call.authenticated);
      if e.Some? { return; }
      ghost var ready := log;
      answer := Exchange(call);
      OneFromRouter(answer, call, |old(log)|, log, |ready|);
      if call.authenticated {
        NothingEscapes(ready, log);
        EscapesInParts(old(log), ready, log);
      }
    }

    lemma OneFromRouter(answer: Answer, call: Call, from: nat, upTo: Log, n: nat)
      requires from <= n < |upTo| && upTo[n] == Sent(call, answer) && answers(n)(call) == answer
      ensures FromRouter(answer, call, from, upTo)
    {
    }

    /** Renew the session and put the same request again, once. */
    method ReplayAfterLogin(call: Call) returns (r: Outcome)
      requires !call.purpose.Open? && call.authenticated && Replayable(call)
      modifies this
      ensures beliefs == old(beliefs) && lastCheck == old(lastCheck)
      ensures OnlyOf(old(log), log, call.purpose)
      ensures Answers(old(log), call.purpose) <= Answers(log, call.purpose)
      ensures AllFromRouter(Newer(old(log), log, call.purpose), call, |old(log)|, log)
      ensures var a := Newer(old(log), log, call.purpose);
              && |a| <= 1
              && (|a| == 0 ==> r.Err? && r.error != Auth)
              && (|a| == 1 ==> Disposed(Again(call), a[0], measured) == Finish(r) && Logins(log) > Logins(old(log)))
      ensures Newer(old(log), log, call.purpose) == [] && !old(OutageNow()) ==> r.Err? && LoginFailed(log, r.error)
      ensures r == Err(Unexpected) <==> Escapes(old(log), log)
      ensures Logins(log) == Logins(old(log)) ==> unchanged(this`sessionStarted, this`sessionLifetimes)
      ensures r.Ok? ==> sessionActive
      ensures Logins(log) <= Logins(old(log)) + 1
      ensures Writes(log) == Writes(old(log))
      ensures Sessions(log) - Sessions(old(log)) <= Logins(log) - Logins(old(log))
      ensures r == Err(Credentials) ==> Rejected(log) > Rejected(old(log)) || password == ""
      ensures r.Ok? ==> lastActivity == clock
      ensures r != Err(WriteRefused) && clock >= old(clock)
      decreases 9
    {
      hide Logins, Forms, Replies, Sessions, Rejected, Writes, Answers, Raises, Disposed, FromRouter, Escapes, LoginIs;
      r := Login();
      if r.Err? {
        assert Newer(old(log), log, call.purpose) == [];
        return;
      }
      ghost var renewed := log;
      r := Perform(Again(call));
      EscapesInParts(old(log), renewed, log);
      WiderFromRouter(Newer(renewed, log, call.purpose), Again(call), |renewed|, log, |old(log)|, log);
      SameAgain(Newer(renewed, log, call.purpose), call, |old(log)|, log);
      NothingBefore(old(log), renewed, log, call.purpose);
      ghost var a := Newer(renewed, log, call.purpose);
      if |a| == 1 && Disposed(Again(call), a[0], measured).Renewal? {
        RenewsOnlyReads(Again(call), a[0], measured);
      }
    }

    lemma SameAgain(a: seq<Answer>, call: Call, from: nat, upTo: Log)
      requires AllFromRouter(a, Again(call), from, upTo)
      ensures AllFromRouter(a, call, from, upTo)
    {
      assert Again(Again(call)) == Again(call);
    }

    // ----- the check before a write ------------------------------------------------------

    /** Nowhere does the router give the reading its value for a session logged in. */
    ghost predicate NeverSaysOk() {
      forall n: nat, call: Call :: call.purpose == FLAG && HasFlag(answers(n)(call)) ==>
        !SaysOk(Some(answers(n)(call).payload[flagKey]), flagOk)
    }

    predicate HasFlag(a: Answer) { a.Body? && flagKey in a.payload }

    /** A read on the session. */
    method SessionRead(name: string, requested: Option<seq<string>>, classify: bool, retry: bool) returns (r: Outcome)
      modifies this
      ensures beliefs == old(beliefs) && lastCheck == old(lastCheck)
      ensures OnlyReads(old(log), log) && OnlyOf(old(log), log, Read(name)) && clock >= old(clock)
      ensures Answers(old(log), Read(name)) <= Answers(log, Read(name))
      ensures var call := SessionCall(name, requested, classify, retry);
              && Explains(call, Newer(old(log), log, Read(name)), r, measured)
              && AllFromRouter(Newer(old(log), log, Read(name)), call, |old(log)|, log)
              && (old(JustMade() && !OutageNow()) ==>
                    Newer(old(log), log, Read(name)) != []
                    && Newer(old(log), log, Read(name))[0] == answers(|old(log)|)(call))
      ensures PutAs(SessionCall(name, requested, classify, retry), r, old(log), log)
      ensures |Newer(old(log), log, Read(name))| == 2 ==> Logins(log) > Logins(old(log))
      ensures Newer(old(log), log, Read(name)) == [] && !old(OutageNow()) ==>
                Logins(log) == Logins(old(log)) + 1 && Sessions(log) == Sessions(old(log))
      ensures old(Standing() && !OutageNow()) ==>
                var a := Newer(old(log), log, Read(name));
                a != [] && (Disposed(SessionCall(name, requested, classify, retry), a[0], measured).Finish? ==>
                              Logins(log) == Logins(old(log)))
      ensures Logins(log) == Logins(old(log)) ==> unchanged(this`sessionStarted, this`sessionLifetimes)
      ensures r.Ok? ==> sessionActive && lastActivity == clock
      ensures Logins(log) <= Logins(old(log)) + (if old(JustMade()) then 0 else 1) + if retry then 1 else 0
      ensures r == Err(Unexpected) <==> Escapes(old(log), log)
      ensures r == Err(Credentials) ==> Rejected(log) > Rejected(old(log)) || password == ""
      ensures r != Err(WriteRefused)
      ensures old(OutageNow()) ==> r == Err(OutageRefused) && log == old(log) && clock == old(clock)
    {
      hide Logins, Forms, Replies, Sessions, Rejected, Writes, Answers, Raises, Explains, AllFromRouter, Newer, Escapes;
      r := Perform(SessionCall(name, requested, classify, retry));
    }

    lemma NeverSeenOk(a: seq<Answer>, from: nat, upTo: Log)
      requires NeverSaysOk() && AllFromRouter(a, FLAG_CALL, from, upTo)
      ensures !SaysOk(SeenIn(a, flagKey, measured), flagOk)
    {
      hide Strip, Disposed;
      if SeenIn(a, flagKey, measured).Some? {
        assert a[0] in a;
        var call := if FromRouter(a[0], FLAG_CALL, from, upTo) then FLAG_CALL else Again(FLAG_CALL);
        assert FromRouter(a[0], call, from, upTo) && call.purpose == FLAG;
        var n: nat :| from <= n < |upTo| && upTo[n] == Sent(call, a[0]) && answers(n)(call) == a[0];
        assert SeenIn(a, flagKey, measured) == Some(answers(n)(call).payload[flagKey]);
      }
    }

    /** Ask the router whether this session is logged in. */
    method ReadSessionFlag() returns (flag: Flag)
      modifies this
      ensures lastCheck == old(lastCheck) && OnlyReads(old(log), log) && OnlyOf(old(log), log, FLAG)
      ensures WasAsked(FLAG_CALL, old(log), log)
      ensures beliefs.firmware == old(beliefs).firmware
      ensures var seen := SeenIn(Newer(old(log), log, FLAG), flagKey, measured);
              && (flag, beliefs) == FlagRead(old(beliefs), seen, flagOk)
              && (NeverSaysOk() ==> !SaysOk(seen, flagOk))
      ensures old(JustMade() && !OutageNow()) ==> Newer(old(log), log, FLAG) == [answers(|old(log)|)(FLAG_CALL)]
      ensures Logins(log) <= Logins(old(log)) + if old(JustMade()) then 0 else 1
      ensures old(OutageNow()) ==> log == old(log) && clock == old(clock)
      ensures clock >= old(clock)
    {
      hide Logins, Forms, Replies, Sessions, Rejected, Writes, Answers, Raises;
      hide Strip, Escapes, AllFromRouter, Explains, SeenIn, NeverSaysOk;
      var r := SessionRead("session flag", None, false, false);
      FlagOutcome(Newer(old(log), log, FLAG), r, flagKey, measured);
      if NeverSaysOk() { NeverSeenOk(Newer(old(log), log, FLAG), |old(log)|, log); }
      hide Newer;
      if r.Err? || r.body.None? || flagKey !in r.body.value { return Unanswered; }
      if Strip(r.body.value[flagKey]) == flagOk {
        beliefs := beliefs.(seen := Some(FirmwareNow(beliefs)));
        return Confirmed;
      }
      if Supported(beliefs) {
        beliefs := beliefs.(seen := Adopted(beliefs.seen, beliefs.firmware));
        return Denied;
      }
      flag := if Absent(beliefs) then Unanswered else Unproven;
      beliefs := beliefs.(absent := Adopted(beliefs.absent, beliefs.firmware));
    }

    /** The fallback for a device that does not answer the reading: it notes, and blocks nothing. */
    method NoteWitnessVerdict() returns (e: Option<Error>)
      modifies this
      ensures clock >= old(clock)
      ensures beliefs == old(beliefs) && if e.None? then lastCheck.ByWitness? else lastCheck == old(lastCheck)
      ensures e.None? || e == Some(Unexpected)
      ensures e.Some? <==> WitnessMet(old(log), log)
      ensures WitnessesSay(if e.None? then lastCheck.reading else None, old(log), log)
      ensures OnlyReads(old(log), log) && OnlyOf(old(log), log, WITNESSES)
      ensures Logins(log) <= Logins(old(log)) + if old(JustMade()) then 0 else 1
    {
      hide Logins, Forms, Replies, Sessions, Rejected, Writes, Answers, Raises, AllFromRouter, PutAs, Session.Classify;
      e := None;
      if witnesses == [] {
        lastCheck := ByWitness(None);
        NothingNewer(log, WITNESSES);
        return;
      }
      var request := witnesses + companion;
      var r := SessionRead("witnesses", Some(request), false, false);
      assert PutAs(WitnessCall(), r, old(log), log);
      OnceOutcome(WitnessCall(), Newer(old(log), log, WITNESSES), r, measured);
      WitnessOutcome(Newer(old(log), log, WITNESSES), WitnessCall(), r, measured);
      hide Explains, ReadingIn;
      match r {
        case Err(error) =>
          if error == Unexpected { return Some(Unexpected); }
          lastCheck := ByWitness(None);
        case Ok(body) =>
          if body.None? { return Some(Unexpected); }
          lastCheck := ByWitness(Some(Session.Classify(body.value, Some(request), measured)));
      }
    }

    function First(t: CheckTrace): Option<string> { SeenIn(Newer(t.begun, t.asked, FLAG), flagKey, measured) }

    function Second(t: CheckTrace): Option<string> { SeenIn(Newer(t.renewed, t.judged, FLAG), flagKey, measured) }

    /** The beliefs after a check, but for the firmware known since. */
    ghost predicate Told(before: Beliefs, t: CheckTrace, now: Beliefs) {
      now == Checked(before, First(t), t.loggedIn, Second(t), flagOk).(firmware := now.firmware)
      && (NeverSaysOk() ==> !SaysOk(First(t), flagOk) && !SaysOk(Second(t), flagOk))
    }

    /** What a check that was not broken off left noted. */
    ghost predicate NotedAs(before: Beliefs, t: CheckTrace)
      reads this
    {
      var noted := Noted(before, First(t), t.loggedIn, Second(t), flagOk);
      if noted.Some? then lastCheck == noted.value
      else lastCheck.ByWitness? && WitnessesSay(lastCheck.reading, t.judged, t.noted)
    }

    /** The flag was read; where that was doubted a login followed, and where the login made a
        session a second read. */
    ghost predicate Asked(before: Beliefs, t: CheckTrace) {
      && WasAsked(FLAG_CALL, t.begun, t.asked)
      && (if Doubts(before, First(t), flagOk) then LoggedIn(t.loggedIn, t.asked, t.renewed)
          else !t.loggedIn && t.renewed == t.asked)
      && (if t.loggedIn then WasAsked(FLAG_CALL, t.renewed, t.judged) else t.judged == t.renewed)
    }

    /** One login on the log, and what came of it; or one refused in an outage. */
    ghost predicate LoginPut(r: Outcome, begun: Log, ended: Log) {
      || (ended == begun && MayRefuse() && r == Err(OutageRefused))
      || (&& BeforeLogin(ended) == begun
          && LoginIs(r, Newer(begun, ended, Open), NewReplies(begun, ended), password))
    }

    ghost predicate LoggedIn(made: bool, begun: Log, ended: Log) {
      exists r: Outcome :: LoginPut(r, begun, ended) && made == r.Ok?
    }

    /** What makes a check raise. */
    ghost predicate Breaks(t: CheckTrace) { Escapes(t.asked, t.renewed) || WitnessMet(t.judged, t.noted) }

    /** Confirm the session before a write, logging in again where the router denies it or has
        never been known to answer.

        It raises exactly where its own login, or the read of the witnesses, met something
        that is no object, or a form of that login raised; the read of the flag swallows the same. */
    method EnsureSession() returns (e: Option<Error>, ghost t: CheckTrace)
      modifies this
      ensures clock >= old(clock)
      ensures t.begun == old(log) && t.noted == log && Traced(t) && Asked(old(beliefs), t)
      ensures OnlyOf(t.judged, log, WITNESSES) && OnlyReads(t.judged, log)
      ensures Told(old(beliefs), t, beliefs) && beliefs.firmware == old(beliefs).firmware
      ensures e.None? ==> NotedAs(old(beliefs), t)
      ensures e == if Breaks(t) then Some(Unexpected) else None
      ensures old(JustMade() && !OutageNow()) ==> Newer(t.begun, t.asked, FLAG) == [answers(|old(log)|)(FLAG_CALL)]
      ensures Doubts(old(beliefs), First(t), flagOk) && !old(OutageNow()) ==> Newer(t.asked, t.renewed, Open) != []
      ensures AllFromRouter(Newer(t.asked, t.renewed, Open), OPEN_READ, |t.asked|, t.renewed)
      ensures OnlyReads(old(log), log) && Logins(log) <= Logins(old(log)) + 3
    {
      hide Logins, Forms, Replies, Sessions, Rejected, Writes, Answers, Raises, FlagRead, NeverSaysOk, SaysOk, Escapes;
      hide SeenIn, Rechecked, NotedAgain, AllFromRouter, WasAsked, LoggedIn, WitnessesSay;
      var flag := ReadSessionFlag();
      t := CheckTrace(old(log), log, log, log, log, false);
      NothingEscapes(log, log);
      if flag == Confirmed {
        lastCheck := ByFlag(Confirmed, NotTried);
        e := None;
        NothingAsked(log);
      } else if flag == Unanswered {
        e := NoteWitnessVerdict();
        NothingAsked(t.asked);
        t := t.(noted := log);
      } else {
        ghost var renewed, judged, loggedIn;
        e, renewed, judged, loggedIn := LogInAndAsk(flag);
        t := CheckTrace(old(log), t.asked, renewed, judged, log, loggedIn);
      }
    }

    lemma NothingAsked(at: Log)
      ensures Newer(at, at, Open) == [] && Newer(at, at, WITNESSES) == [] && Newer(at, at, FLAG) == []
      ensures SeenIn(Newer(at, at, FLAG), flagKey, measured).None? && !SaysOk(None, flagOk)
      ensures AllFromRouter(Newer(at, at, Open), OPEN_READ, |at|, at)
    {
      hide Answers, Raises;
    }

    /** What follows a doubt: a login, and where it succeeds a second read. */
    method LogInAndAsk(flag: Flag)
      returns (e: Option<Error>, ghost renewed: Log, ghost judged: Log, ghost loggedIn: bool)
      requires flag == Denied || flag == Unproven
      modifies this
      ensures clock >= old(clock)
      ensures OnlyOpen(old(log), renewed) && OnlyOf(renewed, judged, FLAG) && OnlyReads(renewed, judged)
      ensures OnlyOf(judged, log, WITNESSES) && OnlyReads(judged, log)
      ensures loggedIn <==> Sessions(renewed) > Sessions(old(log))
      ensures LoggedIn(loggedIn, old(log), renewed)
      ensures if loggedIn then WasAsked(FLAG_CALL, renewed, judged) else judged == renewed
      ensures var second := SeenIn(Newer(renewed, judged, FLAG), flagKey, measured);
              && beliefs == Rechecked(flag, old(beliefs), loggedIn, second, flagOk)
              && (NeverSaysOk() ==> !SaysOk(second, flagOk))
              && (e.None? ==>
                    var noted := NotedAgain(flag, old(beliefs), loggedIn, second, flagOk);
                    if noted.Some? then lastCheck == noted.value
                    else lastCheck.ByWitness? && WitnessesSay(lastCheck.reading, judged, log))
      ensures beliefs.firmware == old(beliefs).firmware
      ensures e == if Escapes(old(log), renewed) || WitnessMet(judged, log) then Some(Unexpected) else None
      ensures !old(OutageNow()) ==> Newer(old(log), renewed, Open) != []
      ensures AllFromRouter(Newer(old(log), renewed, Open), OPEN_READ, |old(log)|, renewed)
      ensures Logins(log) <= Logins(old(log)) + 2
    {
      hide Logins, Forms, Replies, Sessions, Rejected, Writes, Answers, Raises;
      hide FlagRead, NeverSaysOk, SaysOk, Escapes, SeenIn, AllFromRouter, WasAsked, WitnessesSay, LoginPut;
      var r := Login();
      renewed, judged, loggedIn := log, log, r.Ok?;
      NothingAsked(log);
      NothingEscapes(log, log);
      if r.Err? {
        if r.error == Unexpected { return Some(Unexpected), renewed, judged, loggedIn; }
        if flag == Unproven {
          e := NoteWitnessVerdict();
          return;
        }
        lastCheck := ByFlag(flag, Failed);
        return None, renewed, judged, loggedIn;
      }
      var again := ReadSessionFlag();
      judged := log;
      NothingAsked(log);
      NothingEscapes(log, log);
      if flag == Unproven && again != Confirmed {
        beliefs := beliefs.(absent := Some(FirmwareNow(beliefs)));
        e := NoteWitnessVerdict();
        return;
      }
      lastCheck := ByFlag(again, Made);
      e := None;
    }

    /** Keep the second half of the token's operand against the firmware it was read on. */
    method GetCrVersion(version: string) returns (e: Option<Error>)
      modifies this
      ensures clock >= old(clock)
      ensures lastCheck == old(lastCheck)
      ensures beliefs == if e.None? then old(beliefs).(firmware := Some(version)) else old(beliefs)
      ensures SecondHalfIs(e, old(beliefs).firmware == Some(version), old(log), log) && e != Some(WriteRefused)
      ensures OnlyReads(old(log), log) && Logins(log) == Logins(old(log))
    {
      hide Logins, Forms, Replies, Sessions, Rejected, Writes, Answers, Raises, Newer, AllFromRouter;
      e := None;
      if beliefs.firmware == Some(version) { return; }
      var r := OpenRead();
      if r.Err? { return Some(r.error); }
      if r.body.None? { return Some(Unexpected); }
      beliefs := beliefs.(firmware := Some(version));
    }

    /** The second half of the operand is kept from before, or read once, whatever value it has. */
    ghost predicate SecondHalfIs(e: Option<Error>, known: bool, begun: Log, ended: Log) {
      if known then e.None? && ended == begun
      else
        var c := Newer(begun, ended, Open);
        && |c| <= 1 && (c == [] ==> MayRefuse())
        && e == match OpenOutcome(c)
                case Ok(body) => if body.Some? then None else Some(Unexpected)
                case Err(error) => Some(error)
    }

    /** The token, from its three reads: the version, which must be given; the second half; and the
        reading that changes, which must be given too.  The first that fails decides. */
    ghost predicate TokenIs(e: Option<Error>, known: Option<string>, begun: Log, k: TokenTrace, ended: Log) {
      var v := Newer(begun, k.versioned, Open);
      var version := if v == [] then "" else VersionIn(v[0]);
      && |v| <= 1 && (v == [] ==> MayRefuse())
      && if v == [NotObject] then e == Some(Unexpected) && ended == k.versioned
         else if version == "" then e == Some(Connection) && ended == k.versioned
         else
           && SecondHalfIs(k.second, known == Some(version), k.versioned, k.certified)
           && if k.second.Some? then e == k.second && ended == k.certified
              else PutAs(RD_CALL, k.rd, k.certified, ended) && e == RdError(k.rd)
    }

    /** The token a write ends with: a login of its own, the check, and three readings. */
    method GetAd() returns (e: Option<Error>, ghost t: CheckTrace, ghost k: TokenTrace)
      modifies this
      ensures clock >= old(clock)
      ensures t.begun == old(log) && Traced(t) && Asked(old(beliefs), t) && Extends(t.judged, log)
      ensures Told(old(beliefs), t, beliefs) && (e.None? ==> NotedAs(old(beliefs), t))
      ensures if Breaks(t) then e == Some(Unexpected) && log == t.noted
              else TokenIs(e, old(beliefs).firmware, t.noted, k, log)
      ensures e.None? ==> beliefs.firmware.Some? && beliefs.firmware.value != ""
      ensures e != Some(WriteRefused) && OnlyReads(old(log), log) && Logins(log) <= Logins(old(log)) + 5
    {
      hide Logins, Forms, Replies, Sessions, Rejected, Writes, Answers, Raises;
      hide Checked, Noted, NeverSaysOk, SaysOk, FirstSpelling, PutAs, Asked, Breaks, WitnessesSay;
      hide Traced, SeenIn, AllFromRouter, Escapes, SecondHalfIs, Told, NeverSaysOk;
      e, t := EnsureSession();
      k := TokenTrace(log, log, None, Err(Connection));
      if e.Some? { return; }
      hide Newer;
      var version;
      e, version := GetVersion();
      k := k.(versioned := log, certified := log);
      if e.Some? { return; }
      if version == "" { return Some(Connection), t, k; }
      ToldStill(old(beliefs), t, beliefs, version);
      e := GetCrVersion(version);
      k := k.(certified := log, second := e);
      if e.Some? { return; }
      var r := SessionRead("RD", None, true, true);
      k := k.(rd := r);
      if r.Ok? && r.body.Some? { FirstSpellingExactly(r.body.value, ["RD", "rd"]); }
      if r.Err? { return Some(if r.error == Unexpected then Connection else r.error), t, k; }
      if r.body.None? || FirstSpelling(r.body.value, ["RD", "rd"]) == "" {
        return Some(Connection), t, k;
      }
    }

    lemma ToldStill(b: Beliefs, t: CheckTrace, now: Beliefs, firmware: string)
      requires Told(b, t, now)
      ensures Told(b, t, now.(firmware := Some(firmware)))
    {
    }

    /** The end of a write's payload: refused in an outage, and nothing sent; else, for every
        command but the logout, a login of its own, which may fail but not break off; then the
        check, and for a command that needs one the token. */
    ghost predicate SuffixIs(command: string, e: Option<Error>, b: Beliefs, begun: Log, s: SuffixTrace, ended: Log) {
      || (e == Some(OutageRefused) && ended == begun && MayRefuse())
      || (&& (if command == "LOGOUT" then s.login.Ok? && s.signed == begun
              else LoginPut(s.login, begun, s.signed))
          && if s.login == Err(Unexpected) then e == Some(Unexpected) && ended == s.signed
             else
               && s.check.begun == s.signed && Traced(s.check) && Asked(b, s.check)
               && if Breaks(s.check) then e == Some(Unexpected) && ended == s.check.noted
                  else if command in exempt then e.None? && ended == s.check.noted
                  else TokenIs(e, b.firmware, s.check.noted, s.token, ended))
    }

    /** The end of a write's payload.  Refused first in an outage; otherwise a login of its own,
        and the check, which is none only where that login broke off. */
    method AdSuffix(command: string) returns (e: Option<Error>, ghost s: SuffixTrace)
      modifies this
      ensures clock >= old(clock)
      ensures SuffixIs(command, e, old(beliefs), old(log), s, log)
      ensures e.None? ==> Extends(old(log), s.check.begun) && Traced(s.check) && Extends(s.check.judged, log)
      ensures if old(OutageNow()) || s.login == Err(Unexpected)
              then beliefs == old(beliefs) && lastCheck == old(lastCheck) else Told(old(beliefs), s.check, beliefs)
      ensures e.None? ==> Told(old(beliefs), s.check, beliefs) && NotedAs(old(beliefs), s.check)
      ensures NeverSaysOk() && old(beliefs).seen.None? ==> beliefs.seen.None?
      ensures e != Some(WriteRefused) && OnlyReads(old(log), log)
      ensures command != "LOGOUT" && !old(OutageNow()) ==> Logins(log) > Logins(old(log))
      ensures Logins(log) <= Logins(old(log)) + if command == "LOGOUT" then 5 else 6
      ensures old(OutageNow()) ==> e == Some(OutageRefused) && log == old(log) && clock == old(clock)
    {
      hide Logins, Forms, Replies, Sessions, Rejected, Writes, Answers, Raises;
      hide Noted, NeverSaysOk, Strip, Traced, Newer, SeenIn, Checked;
      hide AllFromRouter, Escapes, TokenIs, Asked, LoginIs, Breaks, WitnessesSay;
      ghost var none := CheckTrace(log, log, log, log, log, false);
      s := SuffixTrace(Ok(None), log, none, TokenTrace(log, log, None, Err(Connection)));
      if OutageNow() { return Some(OutageRefused), s; }
      if command != "LOGOUT" {
        var r := Login();
        s := s.(login := r, signed := log);
        if r == Err(Unexpected) { return Some(Unexpected), s; }
      }
      ghost var check, token;
      if command in exempt {
        e, check := EnsureSession();
        token := s.token;
      } else {
        e, check, token := GetAd();
      }
      s := s.(check := check, token := token);
      if NeverSaysOk() && old(beliefs).seen.None? { NeverSeen(old(beliefs), check, beliefs); }
    }

    /** On a device that never answers ok, a check leaves no belief that it would. */
    lemma NeverSeen(b: Beliefs, t: CheckTrace, now: Beliefs)
      requires Told(b, t, now) && NeverSaysOk() && b.seen.None?
      ensures now.seen.None?
    {
      CheckWithoutTheFlag(b, First(t), t.loggedIn, Second(t), flagOk);
    }

    // ----- writes --------------------------------------------------------------------------

    /** What the router says of the session after it refused a write. */
    ghost function FlagAfter(b: Beliefs, posted: Log, asked: Log): (Flag, Beliefs) {
      FlagRead(b, SeenIn(Newer(posted, asked, FLAG), flagKey, measured), flagOk)
    }

    /** How a refused write is reported: as the session's fault only where the router denies it. */
    ghost function RefusalError(b: Beliefs, posted: Log, asked: Log, ended: Log): Error {
      var flag := FlagAfter(b, posted, asked).0;
      if flag == Denied then Auth
      else if flag != Confirmed && WitnessMet(asked, ended) then Unexpected
      else WriteRefused
    }

    /** After a refusal, ask whether the session was the cause.  Nothing is written again here. */
    method NoteWriteRefusal() returns (e: Option<Error>, ghost asked: Log)
      modifies this
      ensures clock >= old(clock)
      ensures WasAsked(FLAG_CALL, old(log), asked)
      ensures beliefs == FlagAfter(old(beliefs), old(log), asked).1
      ensures var flag := FlagAfter(old(beliefs), old(log), asked).0;
              && (if flag in {Confirmed, Denied} then lastCheck == ByFlag(flag, NotTried) && log == asked
                  else e.None? ==> lastCheck.ByWitness? && WitnessesSay(lastCheck.reading, asked, log))
      ensures var error := RefusalError(old(beliefs), old(log), asked, log);
              e == if error == WriteRefused then None else Some(error)
      ensures OnlyReads(old(log), log)
      ensures NeverSaysOk() && old(beliefs).seen.None? ==> beliefs.seen.None?
    {
      hide Logins, Forms, Replies, Sessions, Rejected, Writes, Answers, Raises, NeverSaysOk, Strip;
      hide WasAsked, Escapes, WitnessMet, WitnessesSay, SeenIn, Newer;
      var flag := ReadSessionFlag();
      asked := log;
      e := None;
      if flag == Confirmed || flag == Denied {
        lastCheck := ByFlag(flag, NotTried);
        return if flag == Denied then Some(Auth) else None, asked;
      }
      e := NoteWitnessVerdict();
    }

    method RequireWriteSuccess(body: Option<Session.Payload>) returns (e: Option<Error>, ghost asked: Log)
      modifies this
      ensures clock >= old(clock)
      ensures e.None? <==> !IsRefusal(body)
      ensures e.None? ==> log == old(log) && beliefs == old(beliefs) && lastCheck == old(lastCheck)
      ensures e.Some? ==>
                WasAsked(FLAG_CALL, old(log), asked) && e == Some(RefusalError(old(beliefs), old(log), asked, log))
      ensures OnlyReads(old(log), log)
      ensures NeverSaysOk() && old(beliefs).seen.None? ==> beliefs.seen.None?
    {
      hide Logins, Forms, Replies, Sessions, Rejected, Writes, Answers, Raises, NeverSaysOk, Strip;
      hide WasAsked, RefusalError, FlagAfter, WitnessesSay;
      asked := log;
      if !IsRefusal(body) { return None, asked; }
      e, asked := NoteWriteRefusal();
      if e.None? { e := Some(WriteRefused); }
    }

    /** One write on the log, from its token on: it is put as any request that may not be put
        twice, and what that came to is its outcome, unless the answer is a refusal; then its
        error is that of the question asked after it. */
    ghost predicate PostIs(command: string, r: Outcome, b: Beliefs, begun: Log, t: PostTrace, ended: Log) {
      && PutAs(PostCall(command), t.put, begun, t.posted)
      && if t.put.Ok? && IsRefusal(t.put.body)
         then WasAsked(FLAG_CALL, t.posted, t.asked) && r == Err(RefusalError(b, t.posted, t.asked, ended))
         else r == t.put && ended == t.posted
    }

    /** Put one write.  It goes out at most once, and the outcome is its own answer's. */
    method Post(command: string) returns (r: Outcome, ghost t: PostTrace)
      modifies this
      ensures clock >= old(clock)
      ensures OnlyWrite(old(log), log, command) && PostIs(command, r, old(beliefs), old(log), t, log)
      ensures var a := Newer(old(log), log, Write(command));
              && |a| <= 1
              && (r.Ok? ==> |a| == 1 && (a[0] == NotObject || (a[0].Body? && !Refused(a[0]))))
              && (r == Err(WriteRefused) ==> |a| == 1 && Refused(a[0]))
      ensures r.Ok? ==> beliefs == old(beliefs) && lastCheck == old(lastCheck)
      ensures NeverSaysOk() && old(beliefs).seen.None? ==> beliefs.seen.None?
    {
      hide Logins, Forms, Replies, Sessions, Rejected, Writes, Answers, Raises, NeverSaysOk, AllFromRouter, Escapes;
      hide RefusalError, WasAsked;
      var call := PostCall(command);
      r := Perform(call);
      hide Explains, LeftToLogin, LoginFailed;
      t := PostTrace(r, log, log);
      WritesOnce(call, Newer(old(log), log, call.purpose), r, measured);
      if r.Err? { return; }
      OutcomeIsLastAnswer(call, Newer(old(log), log, call.purpose), r, measured);
      var e;
      ghost var asked;
      e, asked := RequireWriteSuccess(r.body);
      t := t.(asked := asked);
      NothingAfter(old(log), t.posted, log, call.purpose);
      if e.Some? { r := Err(e.value); }
    }

    /** A whole write on the log, from its own login to its outcome. */
    ghost predicate WriteIs(command: string, r: Outcome, b: Beliefs, begun: Log, w: WriteTrace, ended: Log) {
      && SuffixIs(command, w.suffixError, b, begun, w.suffix, w.built)
      && if w.suffixError.Some? then r == Err(w.suffixError.value) && ended == w.built
         else Told(b, w.suffix.check, w.known) && PostIs(command, r, w.known, w.built, w.post, ended)
    }

    /** One write, built from its token up, after a login of its own. */
    method WriteCommand(command: string) returns (r: Outcome, ghost w: WriteTrace)
      modifies this
      ensures OnlyWrite(old(log), log, command) && WriteIs(command, r, old(beliefs), old(log), w, log)
      ensures command != "LOGOUT" ==> Logins(log) - Logins(old(log)) >= |Newer(old(log), log, Write(command))|
      ensures var a := Newer(old(log), log, Write(command));
              && |a| <= 1
              && (r.Ok? ==> |a| == 1 && (a[0] == NotObject || (a[0].Body? && !Refused(a[0]))))
              && (r == Err(WriteRefused) ==> |a| == 1 && Refused(a[0]))
      ensures old(OutageNow()) ==> r == Err(OutageRefused) && log == old(log) && clock == old(clock)
    {
      hide Logins, Forms, Replies, Sessions, Rejected, Writes, Answers, Raises, NeverSaysOk, Refused, Traced, Told;
      hide NotedAs, SuffixIs, PostIs;
      var e;
      ghost var s;
      e, s := AdSuffix(command);
      ghost var built := log;
      w := WriteTrace(e, s, built, beliefs, PostTrace(Ok(None), log, log));
      assert Newer(old(log), built, Write(command)) == [];
      if e.Some? { return Err(e.value), w; }
      ghost var t;
      r, t := Post(command);
      w := w.(post := t);
      NothingBefore(old(log), built, log, Write(command));
    }

    /** A write that sets a complete state: built and put again, once, after a refusal and
        after nothing else; and then the second outcome is the one reported. */
    method RetryOnceOnRefusal(command: string) returns (r: Outcome, ghost t: RetryTrace)
      modifies this
      ensures OnlyWrite(old(log), log, command)
      ensures command != "LOGOUT" ==> Logins(log) - Logins(old(log)) >= |Newer(old(log), log, Write(command))|
      ensures WriteIs(command, t.first, old(beliefs), old(log), t.one, t.between)
      ensures if t.first == Err(WriteRefused) then WriteIs(command, r, t.known, t.between, t.two, log)
              else r == t.first && log == t.between
      ensures var a := Newer(old(log), log, Write(command));
              && |a| <= 2
              && (|a| == 2 ==> Refused(a[0]))
              && (r.Ok? ==> a != [] && (a[|a| - 1] == NotObject || (a[|a| - 1].Body? && !Refused(a[|a| - 1]))))
              && (r == Err(WriteRefused) ==> |a| == 2 && Refused(a[1]))
      ensures old(OutageNow()) ==> r == Err(OutageRefused) && log == old(log)
    {
      hide Logins, Forms, Replies, Sessions, Rejected, Writes, Answers, Raises, Refused, WriteIs;
      ghost var one, two;
      r, one := WriteCommand(command);
      t := RetryTrace(r, one, log, beliefs, one);
      if r != Err(WriteRefused) { return; }
      r, two := WriteCommand(command);
      t := t.(two := two);
      NewerInParts(old(log), t.between, log, Write(command));
    }

    /** A logout on the log: built like a write, without a login of its own, and put once. */
    ghost predicate LogoutIs(b: Beliefs, begun: Log, t: LogoutTrace, ended: Log) {
      && SuffixIs("LOGOUT", t.e, b, begun, t.suffix, t.built)
      && if t.e.Some? then ended == t.built else PutAs(LOGOUT_CALL, t.put, t.built, ended)
    }

    /** End the session, whatever the router makes of the command. */
    method Logout() returns (ghost t: LogoutTrace)
      modifies this
      ensures !sessionActive && OnlyWrite(old(log), log, "LOGOUT")
      ensures |Newer(old(log), log, Write("LOGOUT"))| <= 1 && Logins(log) <= Logins(old(log)) + 6
      ensures if old(sessionActive) then LogoutIs(old(beliefs), old(log), t, log) else log == old(log)
      ensures NeverSaysOk() && old(beliefs).seen.None? ==> beliefs.seen.None?
    {
      hide Logins, Forms, Replies, Sessions, Rejected, Writes, Answers, Raises, NeverSaysOk, Traced, NotedAs, SeenIn;
      hide Strip, SuffixIs, Told, AllFromRouter, Escapes;
      ghost var none := CheckTrace(log, log, log, log, log, false);
      t := LogoutTrace(None, SuffixTrace(Ok(None), log, none, TokenTrace(log, log, None, Ok(None))), log, Ok(None));
      if !sessionActive {
        assert Newer(log, log, Write("LOGOUT")) == [];
        return;
      }
      var e;
      ghost var s;
      e, s := AdSuffix("LOGOUT");
      t := t.(e := e, suffix := s, built := log);
      assert Newer(old(log), t.built, Write("LOGOUT")) == [];
      if e.None? {
        var r := Perform(LOGOUT_CALL);
        t := t.(put := r);
        WritesOnce(LOGOUT_CALL, Newer(t.built, log, LOGOUT_CALL.purpose), r, measured);
        NothingBefore(old(log), t.built, log, Write("LOGOUT"));
      }
      sessionActive := false;
    }

    // ----- sending an SMS --------------------------------------------------------------------

    /** The sent and draft counts, where the router gave any. */
    method SendCounters() returns (c: Option<Counters>)
      modifies this
      ensures beliefs == old(beliefs) && lastCheck == old(lastCheck) && OnlyReads(old(log), log)
      ensures c == CountersIn(Newer(old(log), log, CAPACITY), measured) && WasAsked(CAPACITY_CALL, old(log), log)
      ensures AllFromRouter(Newer(old(log), log, CAPACITY), CAPACITY_CALL, |old(log)|, log)
      ensures Newer(old(log), log, CAPACITY) == [] && !old(OutageNow()) ==>
                Logins(log) == Logins(old(log)) + 1 && Sessions(log) == Sessions(old(log))
      ensures old(OutageNow()) ==> log == old(log) && clock == old(clock)
      ensures clock >= old(clock)
    {
      hide Logins, Sessions, Rejected, Writes, Answers, Raises, Explains, AllFromRouter, Escapes, CountersIn;
      var r := SessionRead("sms_capacity_info", None, false, false);
      CapacityOutcome(Newer(old(log), log, CAPACITY), r, measured);
      hide Newer;
      if r.Err? || r.body.None? { return None; }
      c := Some(CountersOf(r.body.value));
    }

    /** Withhold a write that must not go out twice where the router denies the session. */
    method RequireConfirmedSession() returns (withheld: bool)
      modifies this`beliefs
      ensures withheld == Withheld(old(beliefs), lastCheck) == Withheld(beliefs, lastCheck)
      ensures beliefs == Asserted(old(beliefs)) && (old(beliefs).seen.None? ==> beliefs.seen.None?)
    {
      if !Supported(beliefs) { return false; }
      beliefs := beliefs.(seen := Adopted(beliefs.seen, beliefs.firmware));
      withheld := lastCheck.ByFlag? && lastCheck.verdict == Denied;
    }

    /** Send a message: its write goes out at most once whatever the router answers, never
        while the router is known to deny the session, and on a device never known to answer
        that reading it is never withheld.  An accepted message the router only stored is
        reported as an error, and nothing else that was accepted is. */
    method SendSms() returns (r: Outcome, withheld: bool, ghost t: SendTrace)
      modifies this
      ensures OnlyWrite(old(log), log, "SEND_SMS")
      ensures Newer(old(log), log, SEND) != [] ==> Logins(log) > Logins(old(log))
      ensures var a := Newer(old(log), log, SEND);
              && |a| <= 1
              && (r.Ok? ==> |a| == 1 && (a[0] == NotObject || (a[0].Body? && !Refused(a[0]))))
              && (r == Err(WriteRefused) ==> |a| == 1 && Refused(a[0]))
      ensures WasAsked(CAPACITY_CALL, old(log), t.counted)
              && SuffixIs("SEND_SMS", t.e, old(beliefs), t.counted, t.suffix, t.built)
      ensures if t.e.Some? then r == Err(t.e.value) && !withheld && log == t.built
              else if withheld then r == Err(Auth) && log == t.built
              else DeliveryIs(r, Count(old(log), t.counted), Asserted(t.known), t.built, t.delivery, log)
      ensures t.e.None? ==> NotedBefore(old(beliefs), t) && (withheld <==> Withheld(t.known, t.check))
      ensures NeverSaysOk() && old(beliefs).seen.None? ==> !withheld && beliefs.seen.None?
      ensures old(OutageNow()) ==> r == Err(OutageRefused) && log == old(log)
    {
      hide Logins, Forms, Replies, Sessions, Rejected, Writes, Answers, Raises, NeverSaysOk, CountersIn, AllFromRouter;
      hide Refused, Strip, Traced, SeenIn, Newer, SuffixIs, WasAsked, Checked, Noted, WitnessesSay, DeliveryIs;
      withheld := false;
      var c := SendCounters();
      ghost var counted := log;
      NothingBefore(old(log), log, log, SEND);
      NothingNewer(log, SEND);
      var e;
      ghost var s;
      e, s := AdSuffix("SEND_SMS");
      ghost var built := log;
      ghost var put := PostTrace(Ok(None), log, log);
      t := SendTrace(counted, e, s, built, beliefs, lastCheck, DeliveryTrace(Ok(None), put, log));
      NothingBefore(old(log), built, built, SEND);
      NothingNewer(built, SEND);
      if e.Some? { return Err(e.value), withheld, t; }
      withheld := RequireConfirmedSession();
      if withheld { return Err(Auth), withheld, t; }
      ghost var d;
      r, d := DeliverSms(c);
      t := t.(delivery := d);
      NothingBefore(old(log), built, log, SEND);
    }

    /** The counts a stretch of the log gave. */
    ghost function Count(begun: Log, ended: Log): Option<Counters> {
      CountersIn(Newer(begun, ended, CAPACITY), measured)
    }

    /** What was believed and noted once the message was built. */
    ghost predicate NotedBefore(b: Beliefs, t: SendTrace) {
      var check := t.suffix.check;
      var noted := Noted(b, First(check), check.loggedIn, Second(check), flagOk);
      && Told(b, check, t.known)
      && if noted.Some? then t.check == noted.value else t.check.ByWitness?
    }

    /** The write of a message, and where it was accepted and the counts were given before, the
        counts again: it is reported as that write was, but for a message only stored. */
    ghost predicate DeliveryIs(r: Outcome, before: Option<Counters>, b: Beliefs,
                               begun: Log, d: DeliveryTrace, ended: Log)
    {
      && PostIs("SEND_SMS", d.sent, b, begun, d.post, d.posted)
      && if d.sent.Err? || before.None? then r == d.sent && ended == d.posted
         else
           && WasAsked(CAPACITY_CALL, d.posted, ended)
           && r == if StoredOnly(before, Count(d.posted, ended)) then Err(Connection) else d.sent
    }

    /** Put the message, and see whether it was sent or only stored. */
    method DeliverSms(c: Option<Counters>) returns (r: Outcome, ghost d: DeliveryTrace)
      modifies this
      ensures OnlyWrite(old(log), log, "SEND_SMS")
      ensures DeliveryIs(r, c, old(beliefs), old(log), d, log)
      ensures var a := Newer(old(log), log, SEND);
              && |a| <= 1
              && (r.Ok? ==> |a| == 1 && (a[0] == NotObject || (a[0].Body? && !Refused(a[0]))))
              && (r == Err(WriteRefused) ==> |a| == 1 && Refused(a[0]))
      ensures NeverSaysOk() && old(beliefs).seen.None? ==> beliefs.seen.None?
    {
      hide Logins, Forms, Replies, Sessions, Rejected, Writes, Answers, Raises, NeverSaysOk, CountersIn, AllFromRouter;
      hide Refused, Moved, Digits, IsDigits, Newer, PostIs, WasAsked;
      ghost var t;
      r, t := Post("SEND_SMS");
      d := DeliveryTrace(r, t, log);
      if r.Ok? && c.Some? {
        var now := SendCounters();
        NothingAfter(old(log), d.posted, log, SEND);
        if StoredOnly(c, now) { r := Err(Connection); }
      }
    }
  }

  const SEND := Write("SEND_SMS")

  const CAPACITY := Read("sms_capacity_info")

  const CAPACITY_CALL := SessionCall("sms_capacity_info", None, false, false)

  /** What putting a write came to, the log after it, and after the question that follows a
      refusal. */
  datatype PostTrace = PostTrace(put: Outcome, posted: Log, asked: Log)

  /** What building a write came to, the log and the beliefs after that, and how it was put. */
  datatype WriteTrace =
    WriteTrace(suffixError: Option<Error>, suffix: SuffixTrace, built: Log, known: Beliefs, post: PostTrace)

  datatype RetryTrace = RetryTrace(first: Outcome, one: WriteTrace, between: Log, known: Beliefs, two: WriteTrace)

  datatype LogoutTrace = LogoutTrace(e: Option<Error>, suffix: SuffixTrace, built: Log, put: Outcome)

  const LOGOUT_CALL := Call(Write("LOGOUT"), true, None, true, false, false)

  datatype DeliveryTrace = DeliveryTrace(sent: Outcome, post: PostTrace, posted: Log)

  /** The log after the counts were read the first time; what building the write came to, with the
      log, beliefs and last check then; and the delivery. */
  datatype SendTrace = SendTrace(
    counted: Log, e: Option<Error>, suffix: SuffixTrace, built: Log, known: Beliefs, check: LastCheck,
    delivery: DeliveryTrace)

  function CountersOf(body: Session.Payload): Counters {
    Counters(if "sms_nv_send_total" in body then body["sms_nv_send_total"] else "",
             if "sms_nv_draftbox_total" in body then body["sms_nv_draftbox_total"] else "")
  }

  /** The counts a read was given, if it was given any. */
  function CountersIn(a: seq<Answer>, measured: set<string>): Option<Counters> {
    if |a| == 1 && a[0].Body? && Disposed(CAPACITY_CALL, a[0], measured) == Finish(Ok(Some(a[0].payload)))
    then Some(CountersOf(a[0].payload)) else None
  }

  lemma CapacityOutcome(a: seq<Answer>, r: Outcome, measured: set<string>)
    requires Explains(CAPACITY_CALL, a, r, measured)
    ensures CountersIn(a, measured) == if r.Ok? && r.body.Some? then Some(CountersOf(r.body.value)) else None
  {
    hide CountersOf;
  }

  lemma NothingNewer(at: Log, purpose: Purpose)
    ensures Newer(at, at, purpose) == []
  {
    hide Answers;
  }

  datatype Counters = Counters(sent: string, draft: string)

  /** How far a counter moved, where both readings are numbers. */
  function Moved(was: string, now: string): Option<int> {
    if was != "" && now != "" && IsDigits(was) && IsDigits(now) then Some(Digits(now) - Digits(was)) else None
  }

  /** The draft count rose and the sent count did not: a message kept instead of sent. */
  predicate StoredOnly(before: Option<Counters>, after: Option<Counters>) {
    before.Some? && after.Some? &&
    var sent, draft := Moved(before.value.sent, after.value.sent), Moved(before.value.draft, after.value.draft);
    sent.Some? && draft.Some? && draft.value > 0 && sent.value <= 0
  }

  /** Counts that are given on both sides of a write: only the draft count rose.  Where any of them
      is missing or is no number, nothing is said of the message. */
  lemma StoredOnlyReads(was: Session.Payload, now: Session.Payload, sent: nat, draft: nat, sentNow: nat, draftNow: nat)
    requires was.Keys >= COUNTS && now.Keys >= COUNTS
    requires was["sms_nv_send_total"] == Numeral(sent) && was["sms_nv_draftbox_total"] == Numeral(draft)
    requires now["sms_nv_send_total"] == Numeral(sentNow) && now["sms_nv_draftbox_total"] == Numeral(draftNow)
    ensures StoredOnly(Some(CountersOf(was)), Some(CountersOf(now))) <==> draftNow > draft && sentNow <= sent
  {
    DigitsOfNumeral(sent);
    DigitsOfNumeral(draft);
    DigitsOfNumeral(sentNow);
    DigitsOfNumeral(draftNow);
    hide Numeral, Digits, IsDigits;
  }

  const COUNTS := {"sms_nv_send_total", "sms_nv_draftbox_total"}

  lemma StoredOnlyNeedsCounts(was: Session.Payload, now: Session.Payload)
    requires StoredOnly(Some(CountersOf(was)), Some(CountersOf(now)))
    ensures forall k :: k in COUNTS ==>
              && k in was && was[k] != "" && IsDigits(was[k])
              && k in now && now[k] != "" && IsDigits(now[k])
  {
    hide Digits;
  }

  /** The answers to a write are at most one. */
  lemma WritesOnce(call: Call, a: seq<Answer>, r: Outcome, measured: set<string>)
    requires Explains(call, a, r, measured) && call.purpose.Write?
    ensures |a| <= 1
  {}

  const OPEN_READ := Call(Open, false, None, true, true, false)

  /** What a read that needs no session comes to: none where it was refused, else its one answer. */
  function OpenOutcome(a: seq<Answer>): Outcome {
    if a == [] then Err(OutageRefused)
    else
      match a[0]
      case Body(payload) => Ok(Some(payload))
      case NotObject => Ok(None)
      case _ => Err(Connection)
  }

  lemma OpenExplained(a: seq<Answer>, r: Outcome, measured: set<string>)
    requires Explains(OPEN_READ, a, r, measured) && |a| <= 1
    ensures r == OpenOutcome(a) && (r == Ok(None) <==> NotObject in a)
  {
  }

  /** The login counters as an answer has them. */
  datatype Guard = Guard(attempts: Option<int>, lockSeconds: Option<int>)

  function GuardOf(a: Answer): Guard {
    if a.Body? then Guard(GuardInt(a.payload, "psw_fail_num_str"), GuardInt(a.payload, "login_lock_time"))
    else Guard(None, None)
  }

  /** One attempt left, or none with a lock running. */
  predicate Forbids(g: Guard) {
    g.attempts == Some(1) || (g.attempts == Some(0) && g.lockSeconds.Some? && g.lockSeconds.value > 0)
  }

  const VERSIONS := ["wa_inner_version", "wa_version", "inner_version"]

  /** The firmware version an answer gives. */
  function VersionIn(a: Answer): string { if a.Body? then FirstSpelling(a.payload, VERSIONS) else "" }

  /** A login makes two reads where the first gets an object, and a third only for a form that
      carries a user and a token of the version read. */
  predicate ReadsAsNeeded(a: seq<Answer>, username: string, password: string) {
    a == [] ||
    if !a[0].Body? then |a| == 1
    else
      |a| == if |a| >= 2 && a[1] != NotObject && !Forbidden(a) && password != "" && username != ""
                && VersionIn(a[1]) != "" then 3 else 2
  }

  /** The login's second read forbids its form. */
  predicate Forbidden(a: seq<Answer>) { |a| >= 2 && Forbids(GuardOf(a[1])) }

  /** What keeps a login from going past its first two reads. */
  function ReadObstacle(a: seq<Answer>): Option<Error> {
    if a == [] then Some(OutageRefused)
    else if a[0] == NotObject || (|a| >= 2 && a[1] == NotObject) then Some(Unexpected)
    else if !a[0].Body? then Some(Connection)
    else None
  }

  /** What keeps a login from putting a form, from the answers to its reads. */
  function Obstacle(a: seq<Answer>, password: string): Option<Error> {
    if ReadObstacle(a).Some? then ReadObstacle(a)
    else if Forbidden(a) then Some(LoginRefused)
    else if password == "" then Some(Credentials)
    else if NotObject in a then Some(Unexpected)
    else None
  }

  /** What follows the first two reads of a login. */
  lemma AfterTwoReads(a: seq<Answer>, username: string, password: string)
    requires |a| == 2 && ReadObstacle(a).None?
    ensures Forbidden(a) ==> Obstacle(a, password) == Some(LoginRefused)
    ensures !Forbidden(a) && password == "" ==> Obstacle(a, password) == Some(Credentials)
    ensures !Forbidden(a) && password != "" ==> Obstacle(a, password) == None
    ensures Forbidden(a) || password == "" || username == "" || VersionIn(a[1]) == "" ==>
              ReadsAsNeeded(a, username, password)
    ensures !Forbidden(a) && password != "" && username != "" && VersionIn(a[1]) != "" ==> forall x ::
              && ReadsAsNeeded(a + [x], username, password) && !Forbidden(a + [x])
              && Obstacle(a + [x], password) == if x == NotObject then Some(Unexpected) else None
  {
    hide GuardOf, VersionIn, Forbids;
    assert forall x :: (a + [x])[1] == a[1] && (a + [x])[0] == a[0];
  }

  lemma NoObstacleIn(a: seq<Answer>, username: string, password: string)
    requires ReadObstacle(a).Some? && (a == [] || if a[0].Body? then |a| == 2 else |a| == 1)
    ensures Obstacle(a, password) == ReadObstacle(a) && ReadsAsNeeded(a, username, password)
  {
  }

  /** A login, from the answers to its reads and to its forms: without an obstacle a form is put,
      and a second one exactly where the first got no verdict; the last one decides. */
  ghost predicate LoginIs(r: Outcome, a: seq<Answer>, f: seq<Reply>, password: string) {
    match Obstacle(a, password)
    case Some(error) => f == [] && r == Err(error)
    case None =>
      && f != [] && (if NoVerdict(f[0]) then |f| == 2 else |f| == 1)
      && r == match FormsOutcome(f) case Some(error) => Err(error) case None => Ok(None)
  }

  /** No answer to a request decides it. */
  predicate LeftToLogin(call: Call, a: seq<Answer>, measured: set<string>) {
    a == [] || (|a| == 1 && Disposed(call, a[0], measured).Renewal?)
  }

  /** The beliefs after it was asked whether the device answers the flag. */
  function Asserted(b: Beliefs): Beliefs { if Supported(b) then b.(seen := Adopted(b.seen, b.firmware)) else b }

  function PostCall(command: string): Call { Call(Write(command), true, None, true, true, false) }

  const FLAG := Read("session flag")

  const WITNESSES := Read("witnesses")

  const FLAG_CALL := SessionCall("session flag", None, false, false)

  function SessionCall(name: string, requested: Option<seq<string>>, classify: bool, retry: bool): Call {
    Call(Read(name), true, requested, classify, retry, false)
  }

  /** The value a read of the flag was given, if it was given one. */
  function SeenIn(a: seq<Answer>, key: string, measured: set<string>): Option<string> {
    if |a| == 1 && a[0].Body? && key in a[0].payload
        && Disposed(FLAG_CALL, a[0], measured) == Finish(Ok(Some(a[0].payload)))
    then Some(a[0].payload[key]) else None
  }

  lemma FlagOutcome(a: seq<Answer>, r: Outcome, key: string, measured: set<string>)
    requires Explains(FLAG_CALL, a, r, measured)
    ensures |a| <= 1
    ensures SeenIn(a, key, measured)
            == if r.Ok? && r.body.Some? && key in r.body.value then Some(r.body.value[key]) else None
  {
  }

  /** The verdict on a read of the witnesses, if it was given an object. */
  function ReadingIn(a: seq<Answer>, call: Call, measured: set<string>): Option<Session.Verdict> {
    if |a| == 1 && a[0].Body? && Disposed(call, a[0], measured) == Finish(Ok(Some(a[0].payload)))
    then Some(Session.Classify(a[0].payload, call.requested, measured)) else None
  }

  lemma WitnessOutcome(a: seq<Answer>, call: Call, r: Outcome, measured: set<string>)
    requires Explains(call, a, r, measured) && !Replayable(call)
    ensures ReadingIn(a, call, measured)
            == if r.Ok? && r.body.Some? then Some(Session.Classify(r.body.value, call.requested, measured)) else None
  {
    hide Session.Classify;
  }

  /** A read that is not put again has nothing to return exactly where it met no object. */
  lemma OnceOutcome(call: Call, a: seq<Answer>, r: Outcome, measured: set<string>)
    requires Explains(call, a, r, measured) && !Replayable(call)
    ensures |a| <= 1 && (r == Ok(None) <==> NotObject in a)
  {
  }

  /** The log at the turns of a check: as it began, after its first read of the flag, after the
      login that follows a doubt, after the second read, and after the read of the witnesses. */
  datatype CheckTrace =
    CheckTrace(begun: Log, asked: Log, renewed: Log, judged: Log, noted: Log, loggedIn: bool)

  /** The log after the version was read and after the second half was, and what came of that and
      of the last read. */
  datatype TokenTrace = TokenTrace(versioned: Log, certified: Log, second: Option<Error>, rd: Outcome)

  /** The login of a write's own and the log after it, its check, and its token. */
  datatype SuffixTrace = SuffixTrace(login: Outcome, signed: Log, check: CheckTrace, token: TokenTrace)

  const RD_CALL := SessionCall("RD", None, true, true)

  /** Without the reading that changes there is no token; an answer that is no object counts as
      one that was not given. */
  function RdError(r: Outcome): Option<Error> {
    match r
    case Err(error) => Some(if error == Unexpected then Connection else error)
    case Ok(body) =>
      if body.Some? && exists k :: k in ["RD", "rd"] && k in body.value && body.value[k] != "" then None
      else Some(Connection)
  }

  /** Reads of the flag on either side of a login, or of none; a login counts where it made a
      session. */
  ghost predicate Traced(t: CheckTrace) {
    && OnlyOf(t.begun, t.asked, FLAG) && OnlyOpen(t.asked, t.renewed) && OnlyOf(t.renewed, t.judged, FLAG)
    && (t.loggedIn <==> Sessions(t.renewed) > Sessions(t.asked))
  }

  ghost predicate WitnessMet(before: Log, after: Log) {
    Escapes(before, after) || NotObject in Newer(before, after, WITNESSES)
  }

  const BLANK := Body(map["loginfo" := ""])

  lemma BlankIsDoubted()
    ensures SeenIn([BLANK], "loginfo", {}) == Some("") && Doubts(Beliefs(None, None, None), Some(""), "ok")
  {
  }

  /** The check before a write can raise: on a session just made, a blank reading of the flag
      calls for a login, whose first read is answered with a list instead of an object. */
  method CheckCanRaise() returns (api: Api, e: Option<Error>)
    ensures e == Some(Unexpected)
  {
    hide Logins, Forms, Replies, Sessions, Rejected, Writes, Answers, Raises, SeenIn;
    hide Doubts, FlagRead, Checked, Noted, Traced, Newer, WitnessMet;
    api := new Api((n: nat) => (call: Call) => if call.purpose == FLAG then BLANK else NotObject, (n: nat) => NoReply,
                   (n: nat) => 1.0, "secret", "", None, false, {}, "loginfo", "ok", [], [], {});
    api.sessionActive, api.sessionStarted := true, Some(0.0);
    ghost var t;
    e, t := api.EnsureSession();
    BlankIsDoubted();
    assert api.First(t) == Some("");
    ghost var answer := Newer(t.asked, t.renewed, Open)[0];
    assert answer in Newer(t.asked, t.renewed, Open) && answer == NotObject;
    assert Escapes(t.asked, t.renewed);
  }
}
