/** One poll of the router: the mandatory payload, the endpoints that may fail on their own,
    one fresh start after an authentication error, and what a failure is reported as. */
module Poll {
  import opened Options
  import opened Requests
  import opened Client
  import Session
  import Batch
  import Outage

  const FETCH_STRIKE_LIMIT := Outage.FETCH_STRIKE_LIMIT

  // ----- optional endpoints ---------------------------------------------------------------

  /** Failures in a row, and the last good payload. */
  datatype Endpoint = Endpoint(failures: nat, held: Option<Session.Payload>)

  const FRESH := Endpoint(0, None)

  predicate Available(e: Endpoint) { e.failures <= FETCH_STRIKE_LIMIT }

  predicate IsAuth(e: Error) { e.Auth? || e.Credentials? }

  /** An endpoint after one fetch that was no authentication error, and the payload served. */
  function Absorbed(e: Endpoint, r: Outcome, fallback: Session.Payload): (Endpoint, Session.Payload) {
    match r
    case Ok(body) =>
      var payload := if body.Some? then body.value else map[];
      (Endpoint(0, Some(payload)), payload)
    case Err(_) =>
      var struck := e.(failures := e.failures + 1);
      (struck, if Available(struck) && e.held.Some? then e.held.value else fallback)
  }

  predicate AuthFails(r: Outcome) { r.Err? && IsAuth(r.error) }

  type Endpoints = map<string, Endpoint>

  function EndpointOf(held: Endpoints, source: string): Endpoint { if source in held then held[source] else FRESH }

  /** The endpoints after one of them was fetched; an authentication error is none of its own. */
  function Taken(held: Endpoints, source: string, r: Outcome): Endpoints {
    if AuthFails(r) then held else held[source := Absorbed(EndpointOf(held, source), r, map[]).0]
  }

  function AbsorbedAll(e: Endpoint, rs: seq<Outcome>, fallback: Session.Payload): Endpoint {
    if rs == [] then e else Absorbed(AbsorbedAll(e, rs[..|rs| - 1], fallback), rs[|rs| - 1], fallback).0
  }

  /** Through failures in a row after a good fetch, the good payload is served three times and
      the fallback from then on, and the endpoint counts as available exactly as long. */
  lemma {:induction false} EndpointHoldsThreeTimes(
    e: Endpoint, good: Session.Payload, rs: seq<Outcome>, next: Outcome, fallback: Session.Payload)
    requires (forall r :: r in rs ==> r.Err?) && next.Err?
    ensures var after := AbsorbedAll(Absorbed(e, Ok(Some(good)), fallback).0, rs, fallback);
            && after == Endpoint(|rs|, Some(good))
            && Absorbed(after, next, fallback).1 == (if |rs| < FETCH_STRIKE_LIMIT then good else fallback)
            && (Available(Absorbed(after, next, fallback).0) <==> |rs| < FETCH_STRIKE_LIMIT)
  {
    if rs != [] {
      var last := rs[|rs| - 1];
      assert last in rs;
      EndpointHoldsThreeTimes(e, good, rs[..|rs| - 1], last, fallback);
    }
  }

  // ----- a batch ----------------------------------------------------------------------------

  const BATCH := Read("batch")

  function BatchCall(chunk: seq<string>, measured: set<string>): Call {
    SessionCall("batch", Some(chunk), Session.Classifiable(chunk, measured), true)
  }

  /** The chunks of a list of names; an empty list is one empty chunk. */
  function ChunksOf(params: seq<string>, overhead: nat): seq<seq<string>> {
    if params == [] then [[]] else Batch.Greedy(params, overhead)
  }

  /** An answer a call can return. */
  predicate Kept(call: Call, a: Answer, measured: set<string>) {
    var next := Disposed(call, a, measured);
    next.Finish? && next.outcome.Ok?
  }

  function PayloadOf(a: Answer): Session.Payload { if a.Body? then a.payload else map[] }

  function Union(given: seq<Answer>): Session.Payload {
    if given == [] then map[] else Union(given[..|given| - 1]) + PayloadOf(given[|given| - 1])
  }

  lemma {:induction false} UnionFront(given: seq<Answer>)
    requires given != []
    ensures Union(given) == PayloadOf(given[0]) + Union(given[1..])
  {
    hide PayloadOf;
    if |given| > 1 {
      var front, last := given[..|given| - 1], given[|given| - 1];
      UnionFront(front);
      assert given[1..][..|given| - 2] == front[1..];
      MergedInAnyOrder(PayloadOf(given[0]), Union(front[1..]), PayloadOf(last));
    }
  }

  lemma MergedInAnyOrder(a: Session.Payload, b: Session.Payload, c: Session.Payload)
    ensures (a + b) + c == a + (b + c)
  {
  }

  lemma UnionOfNothing()
    ensures Union([]) == map[]
  {
  }

  lemma UnionMore(given: seq<Answer>, a: Answer)
    ensures Union(given + [a]) == Union(given) + PayloadOf(a)
  {
    assert (given + [a])[..|given|] == given;
  }

  /** Every chunk was kept as first answered, each key on its own: then the loop over the chunks
      returned what the batch read of those values returns. */
  lemma {:induction false} KeyWiseIsBatchRead(
    chunks: seq<seq<string>>, given: seq<Answer>, measured: set<string>, value: string -> string)
    requires |given| == |chunks|
    requires forall i :: 0 <= i < |given| ==>
               given[i] == Body(Batch.Answer(value, chunks[i]))
                   && Kept(BatchCall(chunks[i], measured), given[i], measured)
    ensures Union(given) == Batch.Merged(value, chunks)
    ensures Session.BatchRead(chunks, measured, value) == Session.Returned(Union(given))
  {
    if chunks != [] {
      assert Session.ChunkDisposal(chunks[0], measured, value) == Session.Stands by {
        assert Kept(BatchCall(chunks[0], measured), given[0], measured);
        hide Session.SessionRejected;
      }
      hide Session.ChunkDisposal, Kept, Batch.Answer;
      KeyWiseIsBatchRead(chunks[1..], given[1..], measured, value);
      UnionFront(given);
    }
  }

  // ----- one poll -------------------------------------------------------------------------

  function Reported(e: Error): Outage.Failure {
    match e
    case Auth => Outage.AuthFailure(false)
    case Credentials => Outage.AuthFailure(true)
    case _ => Outage.Other
  }

  /** An SMS read, whose answer must carry a key; one of the two takes an answer that is no object
      for an empty one. */
  function SmsOutcome(r: Outcome, contract: string, degrades: bool): Outcome {
    match r
    case Ok(body) =>
      if body.Some? && contract in body.value then r else Err(Connection)
    case Err(error) => if degrades && error == Unexpected then Ok(Some(map[])) else r
  }

  function LinkState(r: Outcome): Outage.Data {
    Outage.Data(if r.Ok? && r.body.Some? && "ppp_status" in r.body.value then r.body.value["ppp_status"] else "")
  }

  /** The reads of one round, what each came to, and the log after it. */
  datatype Round = Round(
    core: Outcome, given: seq<Answer>, coreAt: Log,
    extended: Outcome, more: seq<Answer>, extendedAt: Log,
    capacity: Outcome, capacityAt: Log, messages: Outcome, sms: Outcome)

  /** What one poll asks: a round; after an authentication error a login, and where that succeeds a
      second round; and where it is due the provisioning read. */
  datatype FetchTrace = FetchTrace(
    first: Outcome, one: Round, firstHeld: Endpoints, firstAt: Log,
    login: Outcome, loggedAt: Log,
    last: Outcome, two: Round, lastHeld: Endpoints, lastAt: Log,
    provisioning: Outcome, asked: seq<Answer>)

  predicate Blames(f: Outage.Fetch) { !f.Fetched? && f.why == Outage.AuthFailure(true) }

  class Poller {
    const api: Api
    const coordinator: Outage.OutageCoordinator
    const overhead: nat
    const provisioningKey: string
    const sentinels: seq<string>

    var endpoints: Endpoints

    constructor (api: Api, coordinator: Outage.OutageCoordinator, overhead: nat, provisioningKey: string,
                 sentinels: seq<string>)
      ensures this.api == api && this.coordinator == coordinator && endpoints == map[]
    {
      this.api, this.coordinator, this.overhead := api, coordinator, overhead;
      this.provisioningKey, this.sentinels, endpoints := provisioningKey, sentinels, map[];
    }

    /** What every read of a poll keeps: nothing is written, and a rejected password is the
        router's word in this very stretch of the log, or there was none to give. */
    ghost predicate Sound(before: Log, r: Outcome)
      reads api
    {
      OnlyReads(before, api.log)
      && (r == Err(Credentials) ==> Rejected(api.log) > Rejected(before) || api.password == "")
    }

    /** The router answers each key of a request on its own, over a stretch of the log. */
    ghost predicate KeyWise(value: string -> string, from: nat, to: nat) {
      forall n: nat, call: Call :: from <= n < to && call.requested.Some? ==>
        api.answers(n)(call) == Body(Batch.Answer(value, call.requested.value))
    }

    /** One chunk's answer, as the log has it from an exchange on, and one its call can return. */
    ghost predicate FirstTry(a: Answer, chunk: seq<string>, from: nat, upTo: Log) {
      && api.AllFromRouter([a], BatchCall(chunk, api.measured), from, upTo)
      && Kept(BatchCall(chunk, api.measured), a, api.measured)
    }

    /** The same, or one the call can return when put again. */
    ghost predicate SomeTry(a: Answer, chunk: seq<string>, from: nat, upTo: Log) {
      && api.AllFromRouter([a], BatchCall(chunk, api.measured), from, upTo)
      && (Kept(BatchCall(chunk, api.measured), a, api.measured)
          || Kept(Again(BatchCall(chunk, api.measured)), a, api.measured))
    }

    ghost predicate EachChunk(given: seq<Answer>, chunks: seq<seq<string>>, from: nat, upTo: Log) {
      |given| <= |chunks| && forall i :: 0 <= i < |given| ==> FirstTry(given[i], chunks[i], from, upTo)
    }

    ghost predicate EachKept(given: seq<Answer>, chunks: seq<seq<string>>, from: nat, upTo: Log) {
      |given| <= |chunks| && forall i :: 0 <= i < |given| ==> SomeTry(given[i], chunks[i], from, upTo)
    }

    lemma WiderTry(a: Answer, chunk: seq<string>, from: nat, upTo: Log, from2: nat, upTo2: Log)
      requires from2 <= from && upTo <= upTo2
      ensures FirstTry(a, chunk, from, upTo) ==> FirstTry(a, chunk, from2, upTo2)
      ensures SomeTry(a, chunk, from, upTo) ==> SomeTry(a, chunk, from2, upTo2)
    {
      hide Kept;
      if SomeTry(a, chunk, from, upTo) {
        api.WiderFromRouter([a], BatchCall(chunk, api.measured), from, upTo, from2, upTo2);
      }
    }

    lemma MoreChunks(given: seq<Answer>, a: Answer, chunks: seq<seq<string>>, from: nat, upTo: Log, upTo2: Log)
      requires |given| < |chunks| && upTo <= upTo2
      ensures EachChunk(given, chunks, from, upTo) && FirstTry(a, chunks[|given|], from, upTo2) ==>
                EachChunk(given + [a], chunks, from, upTo2)
      ensures EachKept(given, chunks, from, upTo) && SomeTry(a, chunks[|given|], from, upTo2) ==>
                EachKept(given + [a], chunks, from, upTo2)
    {
      hide FirstTry, SomeTry;
      forall i | 0 <= i < |given|
        ensures FirstTry(given[i], chunks[i], from, upTo) ==> FirstTry(given[i], chunks[i], from, upTo2)
        ensures SomeTry(given[i], chunks[i], from, upTo) ==> SomeTry(given[i], chunks[i], from, upTo2)
      {
        WiderTry(given[i], chunks[i], from, upTo, from, upTo2);
      }
    }

    /** One chunk, and the answer it was returned from, where it was.  On a session that stands,
        an answer that calls for no renewal costs no login. */
    method ReadChunk(chunk: seq<string>) returns (r: Outcome, ghost last: Answer)
      modifies api
      ensures OnlyReads(old(api.log), api.log) && Answers(old(api.log), BATCH) <= Answers(api.log, BATCH)
      ensures api.PutAs(BatchCall(chunk, api.measured), r, old(api.log), api.log) && api.clock >= old(api.clock)
      ensures r.Ok? ==> PayloadOf(last) == if r.body.Some? then r.body.value else map[]
      ensures r.Ok? ==> SomeTry(last, chunk, |old(api.log)|, api.log)
      ensures r.Ok? && Logins(api.log) == Logins(old(api.log)) ==>
                && Newer(old(api.log), api.log, BATCH) == [last]
                && FirstTry(last, chunk, |old(api.log)|, api.log)
      ensures old(api.Standing() && !api.OutageNow()) ==>
                var a, call := Newer(old(api.log), api.log, BATCH), BatchCall(chunk, api.measured);
                && a != [] && api.AllFromRouter([a[0]], call, |old(api.log)|, api.log)
                && (Disposed(call, a[0], api.measured).Finish? ==>
                      Logins(api.log) == Logins(old(api.log)) && Disposed(call, a[0], api.measured) == Finish(r))
      ensures r.Ok? ==> api.sessionActive && api.lastActivity == api.clock
      ensures Logins(api.log) == Logins(old(api.log)) ==> unchanged(api`sessionStarted, api`sessionLifetimes)
      ensures r == Err(Credentials) ==> Rejected(api.log) > Rejected(old(api.log)) || api.password == ""
      ensures old(api.OutageNow()) ==> r == Err(OutageRefused) && api.log == old(api.log) && api.clock == old(api.clock)
    {
      hide Logins, Sessions, Rejected, Writes, Answers, Raises, Session.Classifiable, Escapes, Disposed;
      r := api.SessionRead("batch", Some(chunk), Session.Classifiable(chunk, api.measured), true);
      ghost var a := Newer(old(api.log), api.log, BATCH);
      last := Lost;
      if r.Ok? {
        OutcomeIsLastAnswer(BatchCall(chunk, api.measured), a, r, api.measured);
        last := a[|a| - 1];
        assert last in a;
        assert |a| == 1 ==> a == [last];
      }
      assert a != [] ==> a[0] in a;
    }

    /** The chunks so far, each with its answer; without a login since, each as first put. */
    ghost predicate Gathered(before: Log, after: Log, given: seq<Answer>, chunks: seq<seq<string>>) {
      && OnlyReads(before, after) && Answers(before, BATCH) <= Answers(after, BATCH)
      && EachKept(given, chunks, |before|, after)
      && (Logins(after) == Logins(before) ==>
            Newer(before, after, BATCH) == given && EachChunk(given, chunks, |before|, after))
    }

    lemma GatherNothing(at: Log, chunks: seq<seq<string>>)
      ensures Gathered(at, at, [], chunks)
    {
    }

    lemma GatherMore(before: Log, mid: Log, given: seq<Answer>, last: Answer, chunks: seq<seq<string>>, after: Log)
      requires Gathered(before, mid, given, chunks)
      requires OnlyReads(mid, after) && Answers(mid, BATCH) <= Answers(after, BATCH) && |given| < |chunks|
      requires SomeTry(last, chunks[|given|], |mid|, after)
      requires Logins(after) == Logins(mid) ==>
                 Newer(mid, after, BATCH) == [last] && FirstTry(last, chunks[|given|], |mid|, after)
      ensures Gathered(before, after, given + [last], chunks)
    {
      hide Logins, Sessions, Rejected, Writes, Answers, Raises, FirstTry, SomeTry, EachChunk, EachKept;
      WiderTry(last, chunks[|given|], |mid|, after, |before|, after);
      MoreChunks(given, last, chunks, |before|, mid, after);
      if Logins(after) == Logins(before) { NewerInParts(before, mid, after, BATCH); }
    }

    /** A batch read on the log: the union of one answer to each chunk; or the outcome of the first
        chunk whose request failed, after the answers to those before it. */
    ghost predicate IsRead(params: seq<string>, r: Outcome, given: seq<Answer>, before: Log, after: Log) {
      var chunks := ChunksOf(params, overhead);
      if r.Ok? then |given| == |chunks| && r.body == Some(Union(given)) && Gathered(before, after, given, chunks)
      else |given| < |chunks| && FailedAt(chunks, given, r, before, after)
    }

    ghost predicate FailedAt(chunks: seq<seq<string>>, given: seq<Answer>, r: Outcome, before: Log, after: Log)
      requires |given| < |chunks|
    {
      exists mid: Log ::
        && Gathered(before, mid, given, chunks)
        && api.PutAs(BatchCall(chunks[|given|], api.measured), r, mid, after)
    }

    // Against a session that stays alive.

    /** The router answers each key on its own over a stretch of the log, as on a session that a
        batch read of these chunks finds alive. */
    ghost predicate AliveThroughout(chunks: seq<seq<string>>, from: nat, to: nat) {
      exists value :: KeyWise(value, from, to) && Session.BatchRead(chunks, api.measured, value).Returned?
    }

    lemma AliveBefore(chunks: seq<seq<string>>, from: nat, to: nat, to2: nat)
      requires AliveThroughout(chunks, from, to2) && to <= to2
      ensures AliveThroughout(chunks, from, to)
    {
      var value :| KeyWise(value, from, to2) && Session.BatchRead(chunks, api.measured, value).Returned?;
      assert KeyWise(value, from, to);
    }

    /** The first answer to a chunk on such a session stands. */
    lemma AliveStands(chunks: seq<seq<string>>, i: nat, a: Answer, mid: Log, upTo: Log, from: nat)
      requires i < |chunks| && from <= |mid| && AliveThroughout(chunks, from, |upTo|)
      requires api.AllFromRouter([a], BatchCall(chunks[i], api.measured), |mid|, upTo)
      ensures var next := Disposed(BatchCall(chunks[i], api.measured), a, api.measured);
              next.Finish? && next.outcome.Ok?
    {
      var value :| KeyWise(value, from, |upTo|) && Session.BatchRead(chunks, api.measured, value).Returned?;
      Session.ReturnedStands(chunks, api.measured, value, i);
      var call := BatchCall(chunks[i], api.measured);
      assert a in [a];
      var put := if api.FromRouter(a, call, |mid|, upTo) then call else Again(call);
      assert put.requested == Some(chunks[i]);
      var n: nat :| |mid| <= n < |upTo| && upTo[n] == Sent(put, a) && api.answers(n)(put) == a;
      assert a == Body(Batch.Answer(value, chunks[i]));
    }

    /** Read the given names, in as many requests as the URL allows; each is required.

        What is returned is the union of one answer to each chunk, an answer its call can
        return, as the log has it.  Without a login in between each chunk was put once; so, where
        the key set in force is sound, nothing is returned from a router whose session is gone
        without one.  On a session that stands, and does not outgrow its learned age meanwhile, a
        router that shows life in every chunk judged is read without any login. */
    method BatchGet(params: seq<string>) returns (r: Outcome, ghost given: seq<Answer>)
      modifies api
      ensures Sound(old(api.log), r) && IsRead(params, r, given, old(api.log), api.log)
      ensures r.Ok? && Decidable(params) && DeadThroughout(params, |old(api.log)|, |api.log|) ==>
                Logins(api.log) > Logins(old(api.log))
      ensures old(api.Standing() && !api.OutageNow())
              && WithinLearnedAge(old(api.sessionLifetimes), old(api.sessionStarted), api.clock)
              && AliveThroughout(ChunksOf(params, overhead), |old(api.log)|, |api.log|) ==>
                r.Ok? && Logins(api.log) == Logins(old(api.log))
      ensures old(api.OutageNow()) ==> r == Err(OutageRefused) && api.log == old(api.log)
    {
      hide Logins, Sessions, Rejected, Writes, Answers, Raises, Gathered, FailedAt, Union, Sound, Batch.Greedy;
      hide DeadThroughout, AliveThroughout, Decidable, LearnedAgeLimit;
      var chunks := Batch.SplitByUrlBudget(params, overhead);
      if params != [] { Batch.GreedyKeepsItsPromises(params, overhead); }
      r, given := ReadChunks(chunks);
      if r.Ok? && Decidable(params) && DeadThroughout(params, |old(api.log)|, |api.log|) {
        GatheredSo(old(api.log), given, chunks, api.log);
        DeadReturnsNothing(given, params, |old(api.log)|, api.log);
      }
    }

    method ReadChunks(chunks: seq<seq<string>>) returns (r: Outcome, ghost given: seq<Answer>)
      requires chunks != []
      modifies api
      ensures Sound(old(api.log), r) && (r.Ok? ==> r.body == Some(Union(given)))
      ensures r.Ok? ==> |given| == |chunks| && Gathered(old(api.log), api.log, given, chunks)
      ensures r.Err? ==> |given| < |chunks| && FailedAt(chunks, given, r, old(api.log), api.log)
      ensures old(api.Standing() && !api.OutageNow())
              && WithinLearnedAge(old(api.sessionLifetimes), old(api.sessionStarted), api.clock)
              && AliveThroughout(chunks, |old(api.log)|, |api.log|) ==>
                r.Ok? && Logins(api.log) == Logins(old(api.log))
      ensures old(api.OutageNow()) ==> r == Err(OutageRefused) && api.log == old(api.log)
    {
      hide Gathered, Union, PayloadOf, Kept, BatchCall, FirstTry, SomeTry, EachKept, EachChunk, Newer, Sound, OnlyReads;
      hide Logins, Rejected, Answers, Raises, AliveThroughout, LearnedAgeLimit, Disposed;
      var merged: Session.Payload := map[];
      given := [];
      GatherNothing(api.log, chunks);
      UnionOfNothing();
      r := Ok(None);
      var i := 0;
      while i < |chunks|
        invariant i <= |chunks| && r.Ok? && Gathered(old(api.log), api.log, given, chunks) && |given| == i
                  && merged == Union(given)
        invariant old(api.OutageNow()) ==> i == 0 && api.log == old(api.log) && api.clock == old(api.clock)
        invariant api.clock >= old(api.clock)
        invariant old(api.Standing() && !api.OutageNow())
                  && WithinLearnedAge(old(api.sessionLifetimes), old(api.sessionStarted), api.clock)
                  && AliveThroughout(chunks, |old(api.log)|, |api.log|) ==>
                    && Logins(api.log) == Logins(old(api.log)) && api.Standing()
                    && api.sessionStarted == old(api.sessionStarted)
                    && api.sessionLifetimes == old(api.sessionLifetimes)
      {
        ghost var before := api.log;
        ghost var stood := api.Standing() && !api.OutageNow();
        GatheredSo(old(api.log), given, chunks, api.log);
        ghost var last;
        r, last := ReadChunk(chunks[i]);
        if AliveThroughout(chunks, |old(api.log)|, |api.log|) {
          AliveBefore(chunks, |old(api.log)|, |before|, |api.log|);
          if stood {
            AliveStands(chunks, i, Newer(before, api.log, BATCH)[0], before, api.log, |old(api.log)|);
          }
        }
        if r.Err? {
          ReadsInARow(old(api.log), before, r);
          return;
        }
        GatherMore(old(api.log), before, given, last, chunks, api.log);
        UnionMore(given, last);
        given := given + [last];
        if r.body.Some? { merged := merged + r.body.value; }
        i := i + 1;
      }
      r := Ok(Some(merged));
      GatheredSo(old(api.log), given, chunks, api.log);
      SoundWhenOk(old(api.log), r);
    }

    /** What `Gathered` says, and what follows for the outcome. */
    lemma GatheredSo(before: Log, given: seq<Answer>, chunks: seq<seq<string>>, after: Log)
      requires Gathered(before, after, given, chunks)
      ensures OnlyReads(before, after) && Answers(before, BATCH) <= Answers(after, BATCH)
      ensures EachKept(given, chunks, |before|, after) && before <= after
      ensures Logins(after) == Logins(before) ==>
                Newer(before, after, BATCH) == given && EachChunk(given, chunks, |before|, after)
      ensures Logins(after) >= Logins(before)
    {
    }

    lemma ReadsInARow(before: Log, mid: Log, r: Outcome)
      requires OnlyReads(before, mid) && OnlyReads(mid, api.log)
      requires r == Err(Credentials) ==> Rejected(api.log) > Rejected(mid) || api.password == ""
      ensures Sound(before, r)
    {
      hide Logins, Sessions, Rejected, Writes, Answers, Raises;
    }

    lemma SoundWhenOk(before: Log, r: Outcome)
      requires OnlyReads(before, api.log) && r.Ok?
      ensures Sound(before, r)
    {
    }

    /** The router's session is gone throughout a stretch of the log: it serves nothing but the
        keys it serves without one, and those polled are in the key set in force. */
    ghost predicate DeadThroughout(params: seq<string>, from: nat, to: nat) {
      exists value, served :: KeyWise(value, from, to) && Session.SessionGone(value, served) && Known(params, served)
    }

    ghost predicate Known(params: seq<string>, served: set<string>) {
      forall k :: k in params && k in served ==> k in api.measured
    }

    ghost predicate Decidable(params: seq<string>) {
      params != [] && "result" !in params && "status" !in params && Session.PollsSentinel(params, api.measured)
    }

    lemma ReturnsBatchRead(given: seq<Answer>, chunks: seq<seq<string>>, value: string -> string, from: nat, upTo: Log)
      requires EachChunk(given, chunks, from, upTo) && |given| == |chunks| && KeyWise(value, from, |upTo|)
      ensures Session.BatchRead(chunks, api.measured, value) == Session.Returned(Union(given))
    {
      hide Kept, Union;
      forall i | 0 <= i < |given|
        ensures given[i] == Body(Batch.Answer(value, chunks[i]))
                && Kept(BatchCall(chunks[i], api.measured), given[i], api.measured)
      {
        var call := BatchCall(chunks[i], api.measured);
        assert FirstTry(given[i], chunks[i], from, upTo) && given[i] in [given[i]];
        assert call.requested == Some(chunks[i]) == Again(call).requested;
      }
      KeyWiseIsBatchRead(chunks, given, api.measured, value);
    }

    lemma ChunksHold(params: seq<string>)
      requires params != [] && "result" !in params && "status" !in params
      ensures var chunks := ChunksOf(params, overhead);
              Batch.Flatten(chunks) == params && forall c :: c in chunks ==> Session.NoOutcomeKeys(c)
    {
      var chunks := ChunksOf(params, overhead);
      Batch.GreedyKeepsItsPromises(params, overhead);
      forall c | c in chunks ensures Session.NoOutcomeKeys(c) {
        if "result" in c { Session.InFlatten(chunks, c, "result"); }
        if "status" in c { Session.InFlatten(chunks, c, "status"); }
      }
    }

    /** A router that gives, in every chunk judged, a value which needs the session is one a batch
        read finds alive; `BatchGet` then makes no login on a session that stands. */
    lemma LiveIsAlive(params: seq<string>, value: string -> string, from: nat, to: nat)
      requires params != [] && "result" !in params && "status" !in params && KeyWise(value, from, to)
      requires forall c :: c in ChunksOf(params, overhead) && Session.Classifiable(c, api.measured) ==>
                 exists k :: k in c && k !in Session.WithAliases(api.measured) && value(k) != ""
      ensures AliveThroughout(ChunksOf(params, overhead), from, to)
    {
      ChunksHold(params);
      hide KeyWise, Session.BatchRead, ChunksOf;
      Session.LiveSessionIsKept(params, ChunksOf(params, overhead), api.measured, value);
    }

    lemma DeadReturnsNothing(given: seq<Answer>, params: seq<string>, from: nat, upTo: Log)
      requires Decidable(params) && DeadThroughout(params, from, |upTo|)
      ensures var chunks := ChunksOf(params, overhead);
              !(|given| == |chunks| && EachChunk(given, chunks, from, upTo))
    {
      hide KeyWise, EachChunk, Session.BatchRead, Session.PollsSentinel;
      var chunks := ChunksOf(params, overhead);
      var value, served :|
        KeyWise(value, from, |upTo|) && Session.SessionGone(value, served) && Known(params, served);
      ChunksHold(params);
      Session.DeadSessionIsNoticed(params, chunks, api.measured, value, served);
      if |given| == |chunks| && EachChunk(given, chunks, from, upTo) {
        ReturnsBatchRead(given, chunks, value, from, upTo);
      }
    }

    /** One SMS read on the log. */
    ghost predicate IsSmsRead(name: string, contract: string, degrades: bool, r: Outcome, before: Log, after: Log) {
      exists raw: Outcome ::
        api.PutAs(SessionCall(name, None, true, true), raw, before, after) && r == SmsOutcome(raw, contract, degrades)
    }

    /** One of the two SMS reads. */
    method SmsRead(name: string, contract: string, degrades: bool) returns (r: Outcome)
      modifies api
      ensures Sound(old(api.log), r) && IsSmsRead(name, contract, degrades, r, old(api.log), api.log)
    {
      hide Logins, Sessions, Rejected, Writes, Answers, Raises, api.PutAs;
      r := api.SessionRead(name, None, true, true);
      ghost var raw := r;
      if r.Ok? && (r.body.None? || contract !in r.body.value) { r := Err(Connection); }
      if degrades && r == Err(Unexpected) { r := Ok(Some(map[])); }
      assert r == SmsOutcome(raw, contract, degrades);
    }

    /** Take an optional endpoint's fetch under its own count of failures. */
    method FetchOptional(source: string, r: Outcome) returns (out: Outcome)
      modifies this`endpoints
      ensures endpoints == Taken(old(endpoints), source, r)
      ensures out == if AuthFails(r) then r else Ok(Some(Absorbed(EndpointOf(old(endpoints), source), r, map[]).1))
    {
      match r {
        case Err(error) =>
          if IsAuth(error) { return r; }
          var struck := EndpointOf(endpoints, source).(failures := EndpointOf(endpoints, source).failures + 1);
          endpoints := endpoints[source := struck];
          var kept := struck.failures <= FETCH_STRIKE_LIMIT && struck.held.Some?;
          out := Ok(Some(if kept then struck.held.value else map[]));
        case Ok(body) =>
          var payload := if body.Some? then body.value else map[];
          endpoints := endpoints[source := Endpoint(0, Some(payload))];
          out := Ok(Some(payload));
      }
    }

    /** One round on the log: the mandatory read, whose error is the round's; then the optional
        ones, of which only an authentication error is.  What it delivers is the union of the
        mandatory answers over what the extended endpoint serves. */
    ghost predicate RoundIs(core: seq<string>, extended: seq<string>, r: Outcome,
                            held: Endpoints, before: Log, t: Round, heldAfter: Endpoints, after: Log)
    {
      && IsRead(core, t.core, t.given, before, t.coreAt)
      && if t.core.Err? then r == t.core && after == t.coreAt && heldAfter == held
         else
           && ExtendedIs(extended, t)
           && var held2 := Taken(held, "extended", t.extended);
              if AuthFails(t.extended) then r == t.extended && after == t.extendedAt && heldAfter == held2
              else
                && MessagesAre(t.sms, held2, t, heldAfter, after)
                && r == if t.sms.Err? then t.sms else Ok(Some(Served(held, t)))
    }

    ghost predicate ExtendedIs(extended: seq<string>, t: Round) {
      if extended == [] then t.extended == Ok(Some(map[])) && t.extendedAt == t.coreAt
      else IsRead(extended, t.extended, t.more, t.coreAt, t.extendedAt)
    }

    /** What a round delivers, its own answers over those the extended endpoint serves. */
    ghost function Served(held: Endpoints, t: Round): Session.Payload {
      Absorbed(EndpointOf(held, "extended"), t.extended, map[]).1 + Union(t.given)
    }

    /** The two SMS reads, of which only an authentication error is reported. */
    ghost predicate MessagesAre(r: Outcome, held: Endpoints, t: Round, heldAfter: Endpoints, after: Log) {
      && IsSmsRead("sms_capacity_info", "sms_nv_total", true, t.capacity, t.extendedAt, t.capacityAt)
      && var held2 := Taken(held, "sms_capacity", t.capacity);
         if AuthFails(t.capacity) then r == t.capacity && after == t.capacityAt && heldAfter == held2
         else
           && IsSmsRead("sms_data_total", "messages", false, t.messages, t.capacityAt, after)
           && heldAfter == Taken(held2, "sms_messages", t.messages)
           && r == if AuthFails(t.messages) then t.messages else Ok(None)
    }

    method FetchMessages(ghost t0: Round) returns (r: Outcome, ghost t: Round)
      requires t0.extendedAt == api.log
      modifies api, this`endpoints
      ensures Sound(old(api.log), r) && MessagesAre(r, old(endpoints), t, endpoints, api.log)
      ensures t == t0.(capacity := t.capacity, capacityAt := t.capacityAt, messages := t.messages, sms := r)
    {
      hide Logins, Sessions, Rejected, Writes, Answers, Raises, Absorbed, IsSmsRead, Taken;
      t := t0;
      var capacity := SmsRead("sms_capacity_info", "sms_nv_total", true);
      t := t.(capacity := capacity, capacityAt := api.log);
      capacity := FetchOptional("sms_capacity", capacity);
      if capacity.Err? { return capacity, t.(sms := capacity); }
      var messages := SmsRead("sms_data_total", "messages", false);
      t := t.(messages := messages);
      messages := FetchOptional("sms_messages", messages);
      if messages.Err? { return messages, t.(sms := messages); }
      r := Ok(None);
      t := t.(sms := r);
    }

    /** The mandatory payload and the three optional ones; the first authentication error
        ends it. */
    method FetchAll(core: seq<string>, extended: seq<string>) returns (r: Outcome, ghost t: Round)
      modifies api, this`endpoints
      ensures Sound(old(api.log), r) && (r.Ok? ==> r.body.Some?)
      ensures RoundIs(core, extended, r, old(endpoints), old(api.log), t, endpoints, api.log)
    {
      hide Logins, Sessions, Rejected, Writes, Answers, Raises, Absorbed, Gathered, Union, ChunksOf, Taken;
      hide Decidable, DeadThroughout, AliveThroughout, IsRead, IsSmsRead, MessagesAre;
      ghost var given, most := [], [];
      var data;
      data, given := BatchGet(core);
      ghost var none := Ok(None);
      t := Round(data, given, api.log, none, [], api.log, none, api.log, none, none);
      if data.Err? { return data, t; }
      DeliversUnion(core, data, given, old(api.log), api.log);
      var more := Ok(Some(map[]));
      if extended != [] { more, most := BatchGet(extended); }
      t := t.(extended := more, more := most, extendedAt := api.log);
      more := FetchOptional("extended", more);
      if more.Err? { return more, t; }
      var sms;
      sms, t := FetchMessages(t);
      if sms.Err? { return sms, t; }
      r := Ok(Some((if more.body.Some? then more.body.value else map[]) + data.body.value));
    }

    lemma DeliversUnion(params: seq<string>, r: Outcome, given: seq<Answer>, before: Log, after: Log)
      requires IsRead(params, r, given, before, after) && r.Ok?
      ensures r.body == Some(Union(given))
    {
    }

    /** A round on the log; after an authentication error one login, and where that succeeds one
        more round, whose outcome counts. */
    ghost predicate RoundsAre(core: seq<string>, extended: seq<string>, r: Outcome, held: Endpoints, before: Log,
                              t: FetchTrace, heldAfter: Endpoints, after: Log)
    {
      && RoundIs(core, extended, t.first, held, before, t.one, t.firstHeld, t.firstAt)
      && if !AuthFails(t.first) then r == t.first && heldAfter == t.firstHeld && after == t.firstAt
         else
           && api.LoginPut(t.login, t.firstAt, t.loggedAt)
           && if t.login.Err? then r == t.login && heldAfter == t.firstHeld && after == t.loggedAt
              else RoundIs(core, extended, r, t.firstHeld, t.loggedAt, t.two, heldAfter, after)
    }

    /** One fetch on the log: those rounds, and then the provisioning read, where it is due.  What
        is delivered is what the last round says of the connection. */
    ghost predicate FetchIs(core: seq<string>, extended: seq<string>, due: bool, f: Outage.Fetch,
                            held: Endpoints, before: Log, t: FetchTrace, heldAfter: Endpoints, after: Log)
    {
      && RoundsAre(core, extended, t.last, held, before, t, t.lastHeld, t.lastAt)
      && if t.last.Err? then
           f == Outage.FetchFailed(Reported(t.last.error)) && after == t.lastAt && heldAfter == t.lastHeld
         else if !due then f == Outage.Fetched(LinkState(t.last)) && after == t.lastAt && heldAfter == t.lastHeld
         else
           && IsRead([provisioningKey] + sentinels, t.provisioning, t.asked, t.lastAt, after)
           && heldAfter == Taken(t.lastHeld, "provisioning", t.provisioning)
           && f == if AuthFails(t.provisioning) then Outage.FailedAfter(Reported(t.provisioning.error))
                   else Outage.Fetched(LinkState(t.last))
    }

    /** The password was rejected, in the rounds or in the provisioning read. */
    predicate Rejects(t: FetchTrace, due: bool) {
      t.last == Err(Credentials) || (t.last.Ok? && due && t.provisioning == Err(Credentials))
    }

    lemma RejectsIsBlame(core: seq<string>, extended: seq<string>, due: bool, f: Outage.Fetch,
                         held: Endpoints, before: Log, t: FetchTrace, heldAfter: Endpoints, after: Log)
      requires FetchIs(core, extended, due, f, held, before, t, heldAfter, after)
      ensures Rejects(t, due) <==> f == Outage.FetchFailed(Outage.AuthFailure(true))
                                   || f == Outage.FailedAfter(Outage.AuthFailure(true))
      ensures t.last.Err? <==> f.FetchFailed?
    {
      hide RoundsAre, IsRead, Taken;
    }

    method FetchAfresh(core: seq<string>, extended: seq<string>) returns (r: Outcome, ghost t: FetchTrace)
      modifies api, this`endpoints
      ensures Sound(old(api.log), r) && (r.Ok? ==> r.body.Some?)
      ensures RoundsAre(core, extended, r, old(endpoints), old(api.log), t, endpoints, api.log)
      ensures t.last == r && t.lastHeld == endpoints && t.lastAt == api.log
    {
      hide Logins, Sessions, Rejected, Writes, Answers, Raises, RoundIs, api.LoginPut, LoginIs, Escapes;
      ghost var one;
      r, one := FetchAll(core, extended);
      ghost var none := Ok(None);
      t := FetchTrace(r, one, endpoints, api.log, none, api.log, r, one, endpoints, api.log, none, []);
      if r.Err? && IsAuth(r.error) {
        ghost var first := api.log;
        r := api.Login();
        t := t.(login := r, loggedAt := api.log, last := r, lastAt := api.log);
        if r.Ok? {
          ghost var two;
          r, two := FetchAll(core, extended);
          t := t.(last := r, two := two, lastHeld := endpoints, lastAt := api.log);
        }
      }
    }

    /** Ask the router; after an authentication error, log in and ask again, once. */
    method Fetch(core: seq<string>, extended: seq<string>, provisioningDue: bool)
      returns (f: Outage.Fetch, ghost t: FetchTrace)
      modifies api, this`endpoints
      ensures OnlyReads(old(api.log), api.log)
      ensures FetchIs(core, extended, provisioningDue, f, old(endpoints), old(api.log), t, endpoints, api.log)
      ensures Blames(f) ==> Rejected(api.log) > Rejected(old(api.log)) || api.password == ""
    {
      hide Logins, Sessions, Rejected, Writes, Answers, Raises, Absorbed, RoundIs, IsRead, Taken;
      hide Gathered, Union, ChunksOf, Decidable, DeadThroughout, AliveThroughout, api.LoginPut;
      var r;
      r, t := FetchAfresh(core, extended);
      if r.Err? { return Outage.FetchFailed(Reported(r.error)), t; }
      var data := Outage.Data(if "ppp_status" in r.body.value then r.body.value["ppp_status"] else "");
      if provisioningDue {
        ghost var given;
        var answer;
        answer, given := BatchGet([provisioningKey] + sentinels);
        t := t.(provisioning := answer, asked := given);
        answer := FetchOptional("provisioning", answer);
        if answer.Err? { return Outage.FailedAfter(Reported(answer.error)), t; }
      }
      f := Outage.Fetched(data);
    }

    /** One poll, under the coordinator's window, pause and count of failures.

        What it makes of the router is what such a fetch came to, unless it was skipped.  The user
        is asked to sign in only when, in this very poll, the router rejected the password or there
        was none to give, and there was nothing left to hold; a skipped poll asks the router
        nothing; and no poll ever writes. */
    method UpdateData(core: seq<string>, extended: seq<string>, now: real, paused: bool, forced: bool,
                      provisioningDue: bool)
      returns (polled: Outage.Polled, ghost f: Outage.Fetch, ghost t: Option<FetchTrace>)
      modifies api, coordinator, this`endpoints
      ensures (coordinator.View(), polled) == Outage.Poll(old(coordinator.View()), now, paused, forced, f)
      ensures OnlyReads(old(api.log), api.log)
      ensures if Outage.Skips(old(coordinator.View()), now, paused, forced)
              then api.log == old(api.log) && endpoints == old(endpoints)
              else
                && t.Some?
                && FetchIs(core, extended, provisioningDue, f, old(endpoints), old(api.log), t.value, endpoints,
                   api.log)
      ensures polled.SignIn? <==>
                && t.Some? && Rejects(t.value, provisioningDue)
                && (old(coordinator.data).None?
                    || (!old(coordinator.closing) && t.value.last.Err? && old(coordinator.failures) >= 3))
      ensures polled.SignIn? ==> Rejected(api.log) > Rejected(old(api.log)) || api.password == ""
    {
      hide Logins, Sessions, Rejected, Writes, Answers, Raises, FetchIs;
      var skips := Outage.Skips(coordinator.View(), now, paused, forced);
      var fetch := Outage.FetchFailed(Outage.Other);
      t := None;
      if !skips {
        ghost var trace;
        fetch, trace := Fetch(core, extended, provisioningDue);
        t := Some(trace);
        RejectsIsBlame(core, extended, provisioningDue, fetch, old(endpoints), old(api.log), trace, endpoints, api.log);
      }
      f := fetch;
      polled := coordinator.UpdateData(now, paused, forced, fetch);
    }
  }
}
