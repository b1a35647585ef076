/** The discovery pass: every name is asked for, in requests shared with others and then on
    its own, and sorted into answered, declined, never properly asked, or silent.

    Every request is the client's, over whatever router it has; the clock is any function of the
    number of readings so far.  `trace` is what the pass did, oldest first. */
module Discovery {
  import opened Options
  import opened Requests
  import opened Client
  import Session

  const CANARY_FALLBACK_EVERY := 8
  const DISCOVERY_RELOGIN_LIMIT := 3
  const DISCOVERY_MAX_ROUNDS := 4
  const NOT_ROUTER_FIELDS := {
    "result", "cmd", "isTest", "goformId", "multi_data", "sms_received_flag_flag", "function", "return",
    "prototype", "undefined", "length", "value", "true", "false", "null", "type", "data", "name", "class", "style",
    "html", "text", "href", "src", "click", "change", "submit" }

  type Names = seq<string>
  type Values = map<string, string>

  /** What came back from one request: nothing, something that is no object, or an object. */
  datatype Reply = Gone | Other | Object(payload: Session.Payload)

  datatype Result = Failed | SessionLost | Declined | Answered(values: Values)

  /** A request shared by a chunk, for one name alone, or to prove a session. */
  datatype Kind = Shared | Alone | Proof

  datatype Entry = Probe(kind: Kind, chunk: Names, reply: Reply) | Relogin(made: bool) | AliveCheck(alive: bool)

  /** The names of a chunk and after them the canaries not among them. */
  function WithCanaries(request: Names, canaries: Names): (r: Names)
    ensures forall k :: k in r <==> k in request || k in canaries
    decreases |canaries|
  {
    if canaries == [] then request
    else WithCanaries(if canaries[0] in request then request else request + [canaries[0]], canaries[1..])
  }

  const PROBE := Read("probe")

  function ProbeCall(chunk: Names, canaries: Names): Call {
    SessionCall("probe", Some(WithCanaries(chunk, canaries)), false, true)
  }

  /** What a request came back with, from its outcome. */
  function ReplyOf(r: Requests.Outcome): Reply {
    if r.Err? then Gone else if r.body.None? then Other else Object(r.body.value)
  }

  predicate Populated(payload: Session.Payload, k: string) { k in payload && payload[k] != "" }

  /** The values of a reply that are worth keeping. */
  function Harvest(payload: Session.Payload, canaries: Names): Values {
    map k | k in payload && payload[k] != "" && k !in NOT_ROUTER_FIELDS && k !in canaries :: payload[k]
  }

  /** What one reply says about the names asked for. */
  function Judged(chunk: Names, canaries: Names, reply: Reply): Result {
    match reply
    case Gone => Failed
    case Other => Failed
    case Object(payload) =>
      if IsRefusal(Some(payload)) && forall k :: k in WithCanaries(chunk, canaries) ==> k !in payload then Declined
      else if canaries != [] && forall c :: c in canaries ==> !Populated(payload, c) then SessionLost
      else Answered(Harvest(payload, canaries))
  }

  // ----- evidence -----------------------------------------------------------------------

  /** One request is evidence that a name is silent. */
  predicate GaveNothing(e: Entry, name: string, canaries: Names) {
    e.Probe? && name in e.chunk &&
    var result := Judged(e.chunk, canaries, e.reply);
    result.Answered? && name !in result.values
  }

  ghost predicate Silent(name: string, canaries: Names, trace: seq<Entry>) {
    exists e :: e in trace && GaveNothing(e, name, canaries)
  }

  /** What silence means: the name was in a request that came back with an object, which was
      no refusal of the whole and, where there are canaries, showed one of them alive; and
      that object gave it no value. */
  lemma {:induction false} SilenceIsAnAnswer(e: Entry, name: string, canaries: Names)
    requires name !in canaries && name !in NOT_ROUTER_FIELDS
    ensures GaveNothing(e, name, canaries)
            <==> && e.Probe? && name in e.chunk && e.reply.Object?
                 && (!IsRefusal(Some(e.reply.payload))
                     || exists k :: k in e.reply.payload && (k in e.chunk || k in canaries))
                 && (canaries == [] || exists c :: c in canaries && Populated(e.reply.payload, c))
                 && !Populated(e.reply.payload, name)
  {
    if e.Probe? && e.reply.Object? {
      assert forall k :: k in WithCanaries(e.chunk, canaries) <==> k in e.chunk || k in canaries;
    }
  }

  predicate GaveValue(e: Entry, name: string, value: string, canaries: Names) {
    e.Probe? &&
    var result := Judged(e.chunk, canaries, e.reply);
    result.Answered? && name in result.values && result.values[name] == value
  }

  /** What giving a value means: an object that was no refusal of the whole, showed a canary alive
      where there are any, and has that value under the name, which is one worth asking for. */
  lemma {:induction false} ValueIsAnAnswer(e: Entry, name: string, value: string, canaries: Names)
    ensures GaveValue(e, name, value, canaries)
            <==> && e.Probe? && e.reply.Object?
                 && (!IsRefusal(Some(e.reply.payload))
                     || exists k :: k in e.reply.payload && (k in e.chunk || k in canaries))
                 && (canaries == [] || exists c :: c in canaries && Populated(e.reply.payload, c))
                 && name in e.reply.payload && e.reply.payload[name] == value && value != ""
                 && name !in canaries && name !in NOT_ROUTER_FIELDS
  {
    if e.Probe? && e.reply.Object? {
      assert forall k :: k in WithCanaries(e.chunk, canaries) <==> k in e.chunk || k in canaries;
    }
  }

  /** And declining: an object that refuses the whole and holds none of the names asked for. */
  lemma {:induction false} DeclineIsARefusal(e: Entry, canaries: Names)
    requires e.Probe?
    ensures Judged(e.chunk, canaries, e.reply) == Declined
            <==> && e.reply.Object? && IsRefusal(Some(e.reply.payload))
                 && forall k :: k in e.chunk || k in canaries ==> k !in e.reply.payload
  {
  }

  /** A session is lost exactly where an object came back in which every canary is silent, where there
      are any, and which does not refuse the whole; and a request failed where no object came back. */
  lemma LostIsSilentCanaries(chunk: Names, canaries: Names, reply: Reply)
    ensures Judged(chunk, canaries, reply) == SessionLost
            <==> && reply.Object? && canaries != [] && (forall c :: c in canaries ==> !Populated(reply.payload, c))
                 && (!IsRefusal(Some(reply.payload))
                     || exists k :: k in reply.payload && (k in chunk || k in canaries))
    ensures Judged(chunk, canaries, reply) == Failed <==> !reply.Object?
  {
    assert forall k :: k in WithCanaries(chunk, canaries) <==> k in chunk || k in canaries;
  }

  /** The canaries are asked for after the names, each name once. */
  lemma {:induction false} CanariesComeAfter(request: Names, canaries: Names)
    ensures request <= WithCanaries(request, canaries)
    ensures Distinct(request) ==> Distinct(WithCanaries(request, canaries))
    decreases |canaries|
  {
    if canaries != [] {
      var more := if canaries[0] in request then request else request + [canaries[0]];
      CanariesComeAfter(more, canaries[1..]);
    }
  }

  predicate DeclinedAlone(e: Entry, name: string, canaries: Names) {
    e.Probe? && e.chunk == [name] && Judged(e.chunk, canaries, e.reply) == Declined
  }

  /** Every value kept was given, and every name taken as declined was asked alone and declined. */
  ghost predicate Witnessed(found: Values, refused: Names, canaries: Names, trace: seq<Entry>) {
    && (forall n :: n in found ==> exists e :: e in trace && GaveValue(e, n, found[n], canaries))
    && (forall n :: n in refused ==> exists e :: e in trace && DeclinedAlone(e, n, canaries))
  }

  ghost predicate Distinct(names: Names) { forall i, j :: 0 <= i < j < |names| ==> names[i] != names[j] }

  /** The answered, the open and the declined names are three different kinds. */
  ghost predicate Apart(all: Names, found: Values, open: Names, refused: Names) {
    && Distinct(open) && Distinct(refused)
    && (forall n :: n in found || n in open || n in refused ==> n in all)
    && (forall n :: n in found ==> n !in open && n !in refused)
    && (forall n :: n in open ==> n !in refused)
  }

  /** No name is lost: one that is none of the three is silent. */
  ghost predicate Covered(all: Names, found: Values, open: Names, refused: Names, canaries: Names, trace: seq<Entry>) {
    forall n :: n in all ==> n in found || n in open || n in refused || Silent(n, canaries, trace)
  }

  /** How often a name was asked for on its own. */
  function Alones(trace: seq<Entry>, name: string): nat {
    if trace == [] then 0
    else
      var last := trace[|trace| - 1];
      Alones(trace[..|trace| - 1], name) + if last.Probe? && last.kind == Alone && name in last.chunk then 1 else 0
  }

  function Relogins(trace: seq<Entry>): nat {
    if trace == [] then 0 else Relogins(trace[..|trace| - 1]) + if trace[|trace| - 1].Relogin? then 1 else 0
  }

  /** The logins a pass may make: two for a request, and seven for the logout and the login of a
      session made anew. */
  function Allowance(trace: seq<Entry>): nat {
    if trace == [] then 0 else Allowance(trace[..|trace| - 1]) + if trace[|trace| - 1].Relogin? then 7 else 2
  }

  lemma Counted(trace: seq<Entry>, e: Entry)
    ensures forall n :: Alones(trace + [e], n)
                        == Alones(trace, n) + if e.Probe? && e.kind == Alone && n in e.chunk then 1 else 0
    ensures Relogins(trace + [e]) == Relogins(trace) + if e.Relogin? then 1 else 0
    ensures Allowance(trace + [e]) == Allowance(trace) + if e.Relogin? then 7 else 2
  {
    assert (trace + [e])[..|trace|] == trace;
  }

  /** The request by which a new session is proved failed outright. */
  predicate ProofFailed(e: Entry) { e.Probe? && e.kind == Proof && e.reply == Gone }

  ghost predicate NoProofFailed(before: seq<Entry>, after: seq<Entry>) {
    before <= after && forall i :: |before| <= i < |after| ==> !ProofFailed(after[i])
  }

  // ----- names left open ------------------------------------------------------------------

  /** A request that settled none of its names: it failed, was read without a session or declined
      along with others, or came back blank for a chunk. */
  predicate Unsettled(e: Entry, canaries: Names) {
    e.Probe? &&
    match Judged(e.chunk, canaries, e.reply)
    case Answered(values) => values == map[] && |e.chunk| > 1
    case Declined => e.kind != Alone
    case _ => true
  }

  predicate LeavesOpen(e: Entry, name: string, canaries: Names) { Unsettled(e, canaries) && name in e.chunk }

  /** The names left open since a point of the trace: those of its unsettled requests. */
  ghost predicate OpenAre(open: Names, canaries: Names, trace: seq<Entry>, mark: nat) {
    forall n :: n in open <==> exists i :: mark <= i < |trace| && LeavesOpen(trace[i], n, canaries)
  }

  lemma OpenMore(open: Names, open2: Names, canaries: Names, trace: seq<Entry>, mark: nat, e: Entry)
    requires OpenAre(open, canaries, trace, mark) && mark <= |trace|
    requires forall n :: n in open2 <==> n in open || LeavesOpen(e, n, canaries)
    ensures OpenAre(open2, canaries, trace + [e], mark)
  {
    hide LeavesOpen;
    var longer := trace + [e];
    assert longer[|trace|] == e;
    forall n ensures n in open2 <==> exists i :: mark <= i < |longer| && LeavesOpen(longer[i], n, canaries) {
      if n in open {
        var i :| mark <= i < |trace| && LeavesOpen(trace[i], n, canaries);
        assert longer[i] == trace[i];
      }
    }
  }

  /** What has no names of its own leaves none open. */
  predicate Nameless(e: Entry) { e.Probe? ==> e.chunk == [] }

  lemma OpenSame(open: Names, canaries: Names, before: seq<Entry>, after: seq<Entry>, mark: nat)
    requires OpenAre(open, canaries, before, mark) && before <= after && mark <= |before|
    requires forall i :: |before| <= i < |after| ==> Nameless(after[i])
    ensures OpenAre(open, canaries, after, mark)
  {
    forall n ensures n in open <==> exists i :: mark <= i < |after| && LeavesOpen(after[i], n, canaries) {
      if n in open {
        var i :| mark <= i < |before| && LeavesOpen(before[i], n, canaries);
        assert after[i] == before[i];
      }
      if i :| mark <= i < |after| && LeavesOpen(after[i], n, canaries) {
        assert i < |before| && after[i] == before[i];
      }
    }
  }

  lemma NothingOpen(canaries: Names, trace: seq<Entry>)
    ensures OpenAre([], canaries, trace, |trace|)
  {
  }

  // ----- placing names --------------------------------------------------------------------

  lemma Later(all: Names, found: Values, open: Names, refused: Names, canaries: Names,
              before: seq<Entry>, after: seq<Entry>)
    requires before <= after
    ensures Covered(all, found, open, refused, canaries, before) ==> Covered(all, found, open, refused, canaries, after)
    ensures Witnessed(found, refused, canaries, before) ==> Witnessed(found, refused, canaries, after)
  {
    assert forall e :: e in before ==> e in after;
  }

  /** A chunk nothing was learned from stays open. */
  lemma StaysOpen(all: Names, found: Values, open: Names, refused: Names, chunk: Names, canaries: Names,
                  trace: seq<Entry>)
    ensures Covered(all, found, open, refused, canaries, trace) ==>
              Covered(all + chunk, found, open + chunk, refused, canaries, trace)
    ensures Apart(all, found, open, refused) && Distinct(all + chunk) ==>
              Apart(all + chunk, found, open + chunk, refused)
  {
    if Apart(all, found, open, refused) && Distinct(all + chunk) {
      Separate(all, chunk);
      Suffix(all, chunk);
      DistinctTogether(open, chunk);
    }
  }

  lemma Separate(all: Names, chunk: Names)
    requires Distinct(all + chunk)
    ensures forall n :: n in all ==> n !in chunk
  {
    forall i, j | 0 <= i < |all| && 0 <= j < |chunk| ensures all[i] != chunk[j] {
      assert (all + chunk)[i] == all[i] && (all + chunk)[|all| + j] == chunk[j];
    }
  }

  lemma Suffix(all: Names, chunk: Names)
    requires Distinct(all + chunk)
    ensures Distinct(chunk) && Distinct(all)
  {
    forall i, j | 0 <= i < j < |chunk| ensures chunk[i] != chunk[j] {
      assert (all + chunk)[|all| + i] == chunk[i] && (all + chunk)[|all| + j] == chunk[j];
    }
    forall i, j | 0 <= i < j < |all| ensures all[i] != all[j] {
      assert (all + chunk)[i] == all[i] && (all + chunk)[j] == all[j];
    }
  }

  /** A chunk that was answered: the names without a value are silent. */
  lemma IsAnswered(all: Names, found: Values, open: Names, refused: Names, e: Entry, canaries: Names, trace: seq<Entry>)
    requires e in trace && e.Probe? && Judged(e.chunk, canaries, e.reply).Answered?
    ensures var values := Judged(e.chunk, canaries, e.reply).values;
            && (Covered(all, found, open, refused, canaries, trace) ==>
                  Covered(all + e.chunk, found + values, open, refused, canaries, trace))
            && (Witnessed(found, refused, canaries, trace) ==> Witnessed(found + values, refused, canaries, trace))
    ensures var values := Judged(e.chunk, canaries, e.reply).values;
            (forall n :: n in values ==> n in e.chunk) ==>
              (Apart(all, found, open, refused) && Distinct(all + e.chunk) ==>
                 Apart(all + e.chunk, found + values, open, refused))
  {
    var values := Judged(e.chunk, canaries, e.reply).values;
    forall n | n in e.chunk && n !in values ensures Silent(n, canaries, trace) {
      assert GaveNothing(e, n, canaries);
    }
    forall n | n in values ensures exists w :: w in trace && GaveValue(w, n, values[n], canaries) {
      assert GaveValue(e, n, values[n], canaries);
    }
    if Distinct(all + e.chunk) {
      Separate(all, e.chunk);
    }
  }

  lemma IsDeclined(all: Names, found: Values, open: Names, refused: Names, e: Entry, canaries: Names, trace: seq<Entry>)
    requires e in trace && e.Probe? && |e.chunk| == 1 && Judged(e.chunk, canaries, e.reply) == Declined
    ensures Covered(all, found, open, refused, canaries, trace) ==>
              Covered(all + e.chunk, found, open, refused + e.chunk, canaries, trace)
    ensures Witnessed(found, refused, canaries, trace) ==> Witnessed(found, refused + e.chunk, canaries, trace)
    ensures Apart(all, found, open, refused) && Distinct(all + e.chunk) ==>
              Apart(all + e.chunk, found, open, refused + e.chunk)
  {
    assert DeclinedAlone(e, e.chunk[0], canaries);
    if Apart(all, found, open, refused) && Distinct(all + e.chunk) {
      Separate(all, e.chunk);
      DistinctTogether(refused, e.chunk);
    }
  }

  lemma DistinctTogether(a: Names, b: Names)
    requires Distinct(a) && Distinct(b) && forall n :: n in a ==> n !in b
    ensures Distinct(a + b)
  {
    forall i, j | 0 <= i < j < |a + b| ensures (a + b)[i] != (a + b)[j] {
      if i < |a| <= j { assert a[i] in a && b[j - |a|] in b; }
    }
  }

  /** Two stages put together: the second dealt with what the first left open. */
  lemma Joined(all: Names, found: Values, open: Names, refused: Names, found2: Values, open2: Names, refused2: Names,
               canaries: Names, trace: seq<Entry>)
    ensures Covered(all, found, open, refused, canaries, trace)
            && Covered(open, found2, open2, refused2, canaries, trace) ==>
              Covered(all, found + found2, open2, refused + refused2, canaries, trace)
    ensures Apart(all, found, open, refused) && Apart(open, found2, open2, refused2) ==>
              Apart(all, found + found2, open2, refused + refused2)
    ensures Witnessed(found, refused, canaries, trace) && Witnessed(found2, refused2, canaries, trace) ==>
              Witnessed(found + found2, refused + refused2, canaries, trace)
  {
    hide Silent, GaveValue, DeclinedAlone;
    if Apart(all, found, open, refused) && Apart(open, found2, open2, refused2) {
      DistinctTogether(refused, refused2);
      hide Distinct;
    }
  }

  lemma PrefixIsDistinct(names: Names, start: nat, end: nat)
    requires start <= end <= |names|
    ensures names[..start] + names[start..end] == names[..end]
    ensures Distinct(names) ==> Distinct(names[..end]) && Distinct(names[start..])
  {
    assert names[..start] + names[start..end] == names[..end];
  }

  /** When time is up during the chunks, the names declined so far are dropped with the open ones. */
  lemma DropsDeclined(all: Names, found: Values, open: Names, refused: Names, canaries: Names, trace: seq<Entry>)
    ensures Covered(all, found, open, refused, canaries, trace) ==>
              Covered(all, found, open + refused, [], canaries, trace)
    ensures Apart(all, found, open, refused) ==> Apart(all, found, open + refused, [])
    ensures Witnessed(found, refused, canaries, trace) ==> Witnessed(found, [], canaries, trace)
  {
    hide Silent, GaveValue, DeclinedAlone;
    if Apart(all, found, open, refused) {
      DistinctTogether(open, refused);
    }
  }

  /** What is apart with some names open is apart with some of those alone. */
  lemma FewerOpen(all: Names, found: Values, dropped: Names, open: Names, refused: Names)
    requires Apart(all, found, dropped + open, refused)
    ensures Apart(all, found, open, refused)
    ensures forall n :: n in dropped ==> n !in found && n !in open && n !in refused
  {
    Suffix(dropped, open);
    Separate(dropped, open);
    assert forall n :: n in dropped || n in open ==> n in dropped + open;
  }

  // ----- the pass ---------------------------------------------------------------------------

  datatype Outcome = Sorted(found: Values, unasked: Names, refused: Names) | Crashed

  class Pass {
    const api: Api
    const clock: nat -> real
    const canaries: Names
    const alive: Names                    // the names by which a session is confirmed out of band

    var trace: seq<Entry>
    var ticks: nat

    constructor (api: Api, clock: nat -> real, canaries: Names, alive: Names)
      ensures trace == [] && ticks == 0
      ensures this.api == api && this.clock == clock && this.canaries == canaries && this.alive == alive
    {
      this.api, this.clock, this.canaries, this.alive := api, clock, canaries, alive;
      trace, ticks := [], 0;
    }

    // What the log has of what the pass did.

    /** A session made anew on the log: a logout, of one write at most, and then one login. */
    ghost predicate WasMade(made: bool, begun: Log, left: Log, ended: Log) {
      && OnlyWrite(begun, left, "LOGOUT") && |Newer(begun, left, Write("LOGOUT"))| <= 1
      && Logins(left) <= Logins(begun) + 6
      && OnlyOpen(left, ended) && Sessions(ended) == Sessions(left) + (if made then 1 else 0)
      && (Logins(ended) == Logins(left) + 1 || (ended == left && api.MayRefuse()))
    }

    function AliveCall(): Call {
      SessionCall("batch", Some(alive), Session.Classifiable(alive, api.measured), true)
    }

    /** A read on the log, and what came of it. */
    ghost predicate WasRead(call: Call, r: Requests.Outcome, begun: Log, ended: Log) {
      OnlyReads(begun, ended) && api.PutAs(call, r, begun, ended)
    }

    /** What is on record of one step is what the log has of it. */
    ghost predicate Fits(e: Entry, begun: Log, ended: Log) {
      match e
      case Probe(_, chunk, reply) =>
        exists r: Requests.Outcome :: WasRead(ProbeCall(chunk, canaries), r, begun, ended) && reply == ReplyOf(r)
      case AliveCheck(yes) =>
        exists r: Requests.Outcome :: WasRead(AliveCall(), r, begun, ended) && yes == r.Ok?
      case Relogin(made) => exists left: Log :: WasMade(made, begun, left, ended)
    }

    /** Step by step, what is on record since a point is what the log has of it. */
    ghost predicate Account(before: seq<Entry>, begun: Log, after: seq<Entry>, ended: Log)
      decreases |after|
    {
      if |after| <= |before| then after == before && ended == begun
      else
        var front, last := after[..|after| - 1], after[|after| - 1];
        exists mid: Log :: Account(before, begun, front, mid) && Fits(last, mid, ended)
    }

    lemma NoStep(trace: seq<Entry>, log: Log)
      ensures Account(trace, log, trace, log)
    {
    }

    lemma OneStep(before: seq<Entry>, begun: Log, after: seq<Entry>, mid: Log, e: Entry, ended: Log)
      requires Account(before, begun, after, mid) && |before| <= |after| && Fits(e, mid, ended)
      ensures Account(before, begun, after + [e], ended)
    {
      hide Fits;
      assert (after + [e])[..|after|] == after;
    }

    lemma {:induction false} Steps(
      before: seq<Entry>, begun: Log, during: seq<Entry>, mid: Log, after: seq<Entry>, ended: Log)
      requires Account(before, begun, during, mid) && Account(during, mid, after, ended) && |before| <= |during|
      ensures Account(before, begun, after, ended)
      decreases |after|
    {
      hide Fits;
      if |after| > |during| {
        var front, last := after[..|after| - 1], after[|after| - 1];
        var m: Log :| Account(during, mid, front, m) && Fits(last, m, ended);
        Steps(before, begun, during, mid, front, m);
        OneStep(before, begun, front, m, last, ended);
        assert after == front + [last];
      }
    }

    lemma FitsSo(e: Entry, begun: Log, ended: Log)
      requires Fits(e, begun, ended)
      ensures begun <= ended && Logins(begun) <= Logins(ended) <= Logins(begun) + if e.Relogin? then 7 else 2
    {
      hide Logins, Sessions, Rejected, Writes, Answers, Raises, Disposed;
    }

    /** Nothing on record or on the log is taken back, and the logins are within the allowance. */
    lemma {:induction false} AccountSo(before: seq<Entry>, begun: Log, after: seq<Entry>, ended: Log)
      requires Account(before, begun, after, ended)
      ensures before <= after && begun <= ended && Logins(ended) - Logins(begun) <= Allowance(after) - Allowance(before)
      decreases |after|
    {
      hide Fits, Logins, Allowance;
      if |after| > |before| {
        var front, last := after[..|after| - 1], after[|after| - 1];
        var mid: Log :| Account(before, begun, front, mid) && Fits(last, mid, ended);
        AccountSo(before, begun, front, mid);
        FitsSo(last, mid, ended);
        Counted(front, last);
        assert after == front + [last];
      }
    }

    /** An object on record was the router's answer to a request for the chunk and the canaries. */
    lemma ReplyWasSent(e: Entry, begun: Log, ended: Log) returns (n: nat, put: Call)
      requires Fits(e, begun, ended) && e.Probe? && e.reply.Object?
      ensures |begun| <= n < |ended| && ended[n] == Sent(put, Body(e.reply.payload))
      ensures api.answers(n)(put) == Body(e.reply.payload)
      ensures put.purpose == PROBE && put.requested == Some(WithCanaries(e.chunk, canaries))
    {
      hide Logins, Sessions, Rejected, Writes, Answers, Raises, Newer, Session.SessionRejected, WithCanaries, LoginIs;
      var call := ProbeCall(e.chunk, canaries);
      var r: Requests.Outcome :| WasRead(call, r, begun, ended) && e.reply == ReplyOf(r);
      var a := Newer(begun, ended, PROBE);
      OutcomeIsLastAnswer(call, a, r, api.measured);
      var last := a[|a| - 1];
      assert last in a;
      put := if api.FromRouter(last, call, |begun|, ended) then call else Again(call);
      n :| |begun| <= n < |ended| && ended[n] == Sent(put, last) && api.answers(n)(put) == last;
    }

    /** And so for every object on record. */
    lemma {:induction false} ObjectWasSent(
      before: seq<Entry>, begun: Log, after: seq<Entry>, ended: Log, i: nat) returns (n: nat, put: Call)
      requires Account(before, begun, after, ended)
      requires |before| <= i < |after| && after[i].Probe? && after[i].reply.Object?
      ensures |begun| <= n < |ended| && ended[n] == Sent(put, Body(after[i].reply.payload))
      ensures api.answers(n)(put) == Body(after[i].reply.payload)
      ensures put.purpose == PROBE && put.requested == Some(WithCanaries(after[i].chunk, canaries))
      decreases |after|
    {
      hide Fits, WithCanaries, Logins, Allowance;
      var front, last := after[..|after| - 1], after[|after| - 1];
      var mid: Log :| Account(before, begun, front, mid) && Fits(last, mid, ended);
      AccountSo(before, begun, front, mid);
      FitsSo(last, mid, ended);
      if i == |front| {
        n, put := ReplyWasSent(last, mid, ended);
      } else {
        n, put := ObjectWasSent(before, begun, front, mid, i);
        assert ended[n] == mid[n];
      }
    }

    /** An exchange that came back as a probe should: an object that was no refusal of the whole and
        showed a canary alive, where there are any. */
    predicate CameBack(x: Requests.Entry, n: nat) {
      && IsProbe(x, n)
      && (!IsRefusal(Some(x.answer.payload)) || exists k :: k in x.answer.payload && k in x.call.requested.value)
      && (canaries == [] || exists c :: c in canaries && Populated(x.answer.payload, c))
    }

    /** A request for names that the router answered with an object. */
    predicate IsProbe(x: Requests.Entry, n: nat) {
      && x.Sent? && x.answer == api.answers(n)(x.call) && x.answer.Body?
      && x.call.purpose == PROBE && x.call.requested.Some?
    }

    /** A name was asked for in vain: its request came back and gave it no value. */
    predicate InVain(x: Requests.Entry, n: nat, name: string) {
      CameBack(x, n) && name in x.call.requested.value && !Populated(x.answer.payload, name)
    }

    /** A name was given a value. */
    predicate Gives(x: Requests.Entry, n: nat, name: string, value: string) {
      CameBack(x, n) && name in x.answer.payload && x.answer.payload[name] == value && value != ""
    }

    /** A name was asked for with nothing but the canaries, and the whole refused. */
    predicate Declines(x: Requests.Entry, n: nat, name: string) {
      && IsProbe(x, n) && x.call.requested == Some(WithCanaries([name], canaries))
      && IsRefusal(Some(x.answer.payload)) && forall k :: k in x.call.requested.value ==> k !in x.answer.payload
    }

    ghost predicate AskedInVain(name: string, from: nat, upTo: Log) {
      exists n: nat :: from <= n < |upTo| && InVain(upTo[n], n, name)
    }

    ghost predicate GivenOnLog(name: string, value: string, from: nat, upTo: Log) {
      exists n: nat :: from <= n < |upTo| && Gives(upTo[n], n, name, value)
    }

    ghost predicate DeclinedOnLog(name: string, from: nat, upTo: Log) {
      exists n: nat :: from <= n < |upTo| && Declines(upTo[n], n, name)
    }

    /** Every name sorted was given its value, or declined, or, if it is in neither list nor open,
        was asked for in vain, in an exchange of the log. */
    ghost predicate SortedByLog(all: Names, found: Values, open: Names, refused: Names, from: nat, upTo: Log) {
      && (forall n :: n in found ==> GivenOnLog(n, found[n], from, upTo))
      && (forall n :: n in refused ==> DeclinedOnLog(n, from, upTo))
      && (forall n ::
            n in all && n !in found && n !in open && n !in refused && n !in canaries && n !in NOT_ROUTER_FIELDS ==>
              AskedInVain(n, from, upTo))
    }

    /** A name silent on record was asked for in vain on the log. */
    lemma SilenceIsOnTheLog(before: seq<Entry>, begun: Log, after: seq<Entry>, ended: Log, i: nat, name: string)
      requires Account(before, begun, after, ended)
      requires |before| <= i < |after| && GaveNothing(after[i], name, canaries)
      requires name !in canaries && name !in NOT_ROUTER_FIELDS
      ensures AskedInVain(name, |begun|, ended)
    {
      hide Account, GaveNothing, IsRefusal;
      SilenceIsAnAnswer(after[i], name, canaries);
      var n, put := ObjectWasSent(before, begun, after, ended, i);
      assert InVain(ended[n], n, name);
    }

    /** A value on record was given on the log. */
    lemma ValueIsOnTheLog(before: seq<Entry>, begun: Log, after: seq<Entry>, ended: Log, i: nat,
                          name: string, value: string)
      requires Account(before, begun, after, ended)
      requires |before| <= i < |after| && GaveValue(after[i], name, value, canaries)
      ensures GivenOnLog(name, value, |begun|, ended)
    {
      hide Account, GaveValue, IsRefusal;
      ValueIsAnAnswer(after[i], name, value, canaries);
      var n, put := ObjectWasSent(before, begun, after, ended, i);
      assert Gives(ended[n], n, name, value);
    }

    /** A name declined on record was declined alone on the log. */
    lemma DeclineIsOnTheLog(before: seq<Entry>, begun: Log, after: seq<Entry>, ended: Log, i: nat, name: string)
      requires Account(before, begun, after, ended)
      requires |before| <= i < |after| && DeclinedAlone(after[i], name, canaries)
      ensures DeclinedOnLog(name, |begun|, ended)
    {
      hide Account, IsRefusal, Judged;
      DeclineIsARefusal(after[i], canaries);
      var n, put := ObjectWasSent(before, begun, after, ended, i);
      assert forall k :: k in WithCanaries([name], canaries) <==> k in [name] || k in canaries;
      assert Declines(ended[n], n, name);
    }

    /** From a router that answers nothing, nothing is learned of any name. */
    lemma NothingLearned(begun: Log, found: Values, refused: Names, after: seq<Entry>, ended: Log)
      requires Account([], begun, after, ended) && forall n: nat, call :: !api.answers(n)(call).Body?
      requires Witnessed(found, refused, canaries, after)
      ensures found == map[] && forall name :: !Silent(name, canaries, after)
    {
      hide Account;
      forall e | e in after ensures e.Probe? ==> !e.reply.Object? {
        var i :| 0 <= i < |after| && after[i] == e;
        if e.Probe? && e.reply.Object? {
          var n, put := ObjectWasSent([], begun, after, ended, i);
        }
      }
    }

    /** The router gives values only to names it was asked for. */
    ghost predicate AnswersOnlyWhatIsAsked() {
      forall n: nat, call: Call :: api.answers(n)(call).Body? && call.requested.Some? ==>
        forall k :: Populated(api.answers(n)(call).payload, k) ==> k in call.requested.value || k in NOT_ROUTER_FIELDS
    }

    // ----- the clock ------------------------------------------------------------------------

    /** Some reading of the clock, from one on and before another, was past the deadline. */
    ghost predicate RanOut(from: nat, to: nat, deadline: real) {
      exists t :: from <= t < to && clock(t) > deadline
    }

    /** The reading a number of readings on is the first past the deadline. */
    ghost predicate FirstLate(from: nat, k: nat, deadline: real) {
      clock(from + k) > deadline && !RanOut(from, from + k, deadline)
    }

    /** Time was up before one of the chunks of a list of names. */
    ghost predicate CutInChunks(from: nat, chunkSize: nat, names: nat, deadline: real) {
      exists k: nat :: FirstLate(from, k, deadline) && k * chunkSize < names
    }

    /** Some names are those from the first chunk on that was late. */
    ghost predicate NotReached(rest: Names, from: nat, chunkSize: nat, names: Names, deadline: real) {
      forall k: nat :: FirstLate(from, k, deadline) && k * chunkSize < |names| ==> rest == names[k * chunkSize..]
    }

    lemma OnlyOneIsFirst(from: nat, k: nat, n: nat, deadline: real)
      requires FirstLate(from, k, deadline) && !RanOut(from, from + n, deadline)
      ensures k >= n && (clock(from + n) > deadline ==> k == n)
    {
    }

    lemma ItIsFirst(from: nat, k: nat, deadline: real)
      requires clock(from + k) > deadline && !RanOut(from, from + k, deadline)
      ensures FirstLate(from, k, deadline)
    {
    }

    method TimeIsUp(deadline: real) returns (late: bool)
      modifies this`ticks
      ensures ticks == old(ticks) + 1 && late == (clock(old(ticks)) > deadline)
      ensures forall from: nat :: from <= old(ticks) ==>
                (RanOut(from, ticks, deadline) <==> late || RanOut(from, old(ticks), deadline))
    {
      late := clock(ticks) > deadline;
      ticks := ticks + 1;
    }

    lemma SecondIsLate(deadline: real)
      requires clock(0) <= deadline < clock(1)
      ensures FirstLate(0, 1, deadline)
    {}

    lemma NotYet(deadline: real)
      ensures forall from: nat :: !RanOut(from, from, deadline)
    {}

    // ----- one request --------------------------------------------------------------------------

    /** Put one request.  With no names of its own, one that fails outright takes the pass down. */
    method ProbeChunk(kind: Kind, chunk: Names) returns (result: Result, crashed: bool, ghost e: Entry)
      modifies this`trace, api
      ensures trace == old(trace) + [e] && e.Probe? && e.kind == kind && e.chunk == chunk
      ensures result == Judged(chunk, canaries, e.reply) && (crashed <==> chunk == [] && e.reply == Gone)
      ensures Fits(e, old(api.log), api.log) && Account(old(trace), old(api.log), trace, api.log)
      ensures if old(api.OutageNow()) then api.log == old(api.log)
              else Newer(old(api.log), api.log, PROBE) == [] ==>
                Logins(api.log) == Logins(old(api.log)) + 1 && Sessions(api.log) == Sessions(old(api.log))
      ensures AnswersOnlyWhatIsAsked() && result.Answered? ==> forall k :: k in result.values ==> k in chunk
    {
      hide Logins, Sessions, Answers, Raises, Escapes, IsRefusal, Newer, Explains, Account, OnlyOf, OnlyReads;
      hide api.AllFromRouter, api.PutAs;
      var request := WithCanaries(chunk, canaries);
      var r := api.SessionRead("probe", Some(request), false, true);
      var reply := if r.Err? then Gone else if r.body.None? then Other else Object(r.body.value);
      e := Probe(kind, chunk, reply);
      NoStep(trace, old(api.log));
      assert WasRead(ProbeCall(chunk, canaries), r, old(api.log), api.log) && reply == ReplyOf(r);
      OneStep(trace, old(api.log), trace, old(api.log), e, api.log);
      trace := trace + [Probe(kind, chunk, reply)];
      result := Judged(chunk, canaries, reply);
      crashed := chunk == [] && reply == Gone;
      if reply.Object? {
        hide Fits, WithCanaries;
        var n, put := ReplyWasSent(e, old(api.log), api.log);
      }
    }

    method SessionStillAlive() returns (yes: bool)
      modifies this`trace, api
      ensures trace == old(trace) + [AliveCheck(yes)]
      ensures Account(old(trace), old(api.log), trace, api.log)
    {
      hide Logins, Sessions, Answers, Raises, Escapes, Newer, Explains, Account, OnlyOf, OnlyReads;
      hide api.AllFromRouter, api.PutAs;
      var r := api.SessionRead("batch", Some(alive), Session.Classifiable(alive, api.measured), true);
      yes := r.Ok?;
      NoStep(trace, old(api.log));
      assert WasRead(AliveCall(), r, old(api.log), api.log);
      OneStep(trace, old(api.log), trace, old(api.log), AliveCheck(yes), api.log);
      trace := trace + [AliveCheck(yes)];
    }

    /** Make the session anew within the pass's budget, and prove it. */
    method ReloginOnce(used: nat) returns (crashed: bool, now: nat)
      modifies this`trace, api
      ensures Account(old(trace), old(api.log), trace, api.log)
      ensures if used >= DISCOVERY_RELOGIN_LIMIT then now == used && trace == old(trace) && !crashed
              else now == used + 1 && MadeAnew(old(trace), trace)
      ensures used < DISCOVERY_RELOGIN_LIMIT && old(api.sessionActive) ==> LoggedOut(old(api.log), api.log)
      ensures Relogins(trace) == Relogins(old(trace)) + (now - used)
      ensures forall n :: Alones(trace, n) == Alones(old(trace), n)
      ensures forall i :: |old(trace)| <= i < |trace| ==> Nameless(trace[i])
      ensures if crashed then canaries != [] && trace != [] && ProofFailed(trace[|trace| - 1])
              else NoProofFailed(old(trace), trace)
    {
      hide Relogins, Alones, Logins, Sessions, Answers, Account, Judged, AnswersOnlyWhatIsAsked, Newer, Fits, LoggedOut;
      crashed, now := false, used;
      NoStep(trace, api.log);
      if used >= DISCOVERY_RELOGIN_LIMIT { return; }
      now := used + 1;
      var made := LogOutAndIn();
      if !made { return; }
      ghost var before, begun := trace, api.log;
      ghost var e := AliveCheck(true);
      if canaries == [] {
        var yes := SessionStillAlive();
        e := AliveCheck(yes);
      } else {
        var result;
        result, crashed, e := ProbeChunk(Proof, []);
      }
      Counted(before, e);
      AccountSo(before, begun, trace, api.log);
      StillLoggedOut(old(api.log), begun, api.log);
      Steps(old(trace), old(api.log), before, begun, trace, api.log);
    }

    /** The session that is held is ended, and one is made, if it can be. */
    method LogOutAndIn() returns (made: bool)
      modifies this`trace, api
      ensures trace == old(trace) + [Relogin(made)] && Account(old(trace), old(api.log), trace, api.log)
      ensures old(api.sessionActive) ==> LoggedOut(old(api.log), api.log)
      ensures Relogins(trace) == Relogins(old(trace)) + 1 && forall n :: Alones(trace, n) == Alones(old(trace), n)
    {
      hide Relogins, Alones, Logins, Sessions, Answers, Account, Newer, Fits, api.LogoutIs, LoginIs, Escapes;
      NoStep(trace, api.log);
      ghost var t := api.Logout();
      ghost var left := api.log;
      var r := api.Login();
      made := r.Ok?;
      Made(made, old(api.log), left, api.log);
      OneStep(trace, old(api.log), trace, old(api.log), Relogin(made), api.log);
      Counted(trace, Relogin(made));
      trace := trace + [Relogin(made)];
      assert old(api.sessionActive) ==> api.LogoutIs(old(api.beliefs), old(api.log), t, left);
    }

    lemma StillLoggedOut(begun: Log, mid: Log, ended: Log)
      requires mid <= ended
      ensures LoggedOut(begun, mid) ==> LoggedOut(begun, ended)
    {
      hide api.LogoutIs;
    }

    /** A logout at the start of a stretch of the log. */
    ghost predicate LoggedOut(begun: Log, ended: Log) {
      exists left: Log, b, t :: begun <= left <= ended && api.LogoutIs(b, begun, t, left)
    }

    /** One session made anew is on record, and after it its proof where there was one to prove. */
    ghost predicate MadeAnew(before: seq<Entry>, after: seq<Entry>) {
      && before < after && after[|before|].Relogin?
      && |after| == |before| + (if after[|before|].made then 2 else 1)
      && (after[|before|].made ==>
            var proof := after[|before| + 1];
            if canaries == [] then proof.AliveCheck? else proof.Probe? && proof.kind == Proof && proof.chunk == [])
    }

    lemma Made(made: bool, begun: Log, left: Log, ended: Log)
      requires WasMade(made, begun, left, ended)
      ensures Fits(Relogin(made), begun, ended)
    {
      hide WasMade;
    }

    // ----- one name at a time ---------------------------------------------------------------------

    /** Ask once for each name on its own.  When time is up the names not reached are the rest,
        and those whose request failed in this round are left over beside them. */
    method ReprobeRound(queue: Names, deadline: real)
      returns (found: Values, refused: Names, still: Names, never: Names, late: bool)
      modifies this, api
      ensures NoProofFailed(old(trace), trace) && Relogins(trace) == Relogins(old(trace))
      ensures Account(old(trace), old(api.log), trace, api.log)
      ensures Witnessed(found, refused, canaries, trace)
      ensures ticks >= old(ticks) && forall from: nat :: from <= old(ticks) ==>
                (RanOut(from, ticks, deadline) <==> late || RanOut(from, old(ticks), deadline))
      ensures Covered(queue, found, still + never, refused, canaries, trace) && (late || never == [])
      ensures OpenAre(still, canaries, trace, |old(trace)|) && OneByOne(old(trace), trace)
      ensures AnswersOnlyWhatIsAsked() && Distinct(queue) ==>
                && Apart(queue, found, still + never, refused)
                && (forall n :: Alones(trace, n) <= Alones(old(trace), n) + 1)
                && AskedAlone(still, old(trace), trace, 1) && AskedAlone(never, old(trace), trace, 0)
                && (!late ==> AskedAlone(queue, old(trace), trace, 1))
    {
      hide Relogins, Alones, Judged, Fits, Silent, GaveValue, DeclinedAlone, Unsettled, OpenAre;
      hide AnswersOnlyWhatIsAsked, Account, RanOut, Apart, Covered, Witnessed, Distinct;
      found, refused, still, never, late := map[], [], [], [], false;
      var index := 0;
      Nothing(canaries, trace);
      NothingOpen(canaries, trace);
      NoStep(trace, api.log);
      assert queue[..0] == [];
      while index < |queue|
        invariant index <= |queue|
        invariant ticks >= old(ticks) && forall from: nat :: from <= old(ticks) ==>
                    (RanOut(from, ticks, deadline) <==> RanOut(from, old(ticks), deadline))
        invariant Account(old(trace), old(api.log), trace, api.log)
        invariant NoProofFailed(old(trace), trace) && Relogins(trace) == Relogins(old(trace))
        invariant Witnessed(found, refused, canaries, trace)
        invariant Covered(queue[..index], found, still, refused, canaries, trace)
        invariant OpenAre(still, canaries, trace, |old(trace)|) && OneByOne(old(trace), trace)
        invariant AnswersOnlyWhatIsAsked() && Distinct(queue) ==>
                    && Apart(queue[..index], found, still, refused)
                    && (forall n :: Alones(trace, n) == Alones(old(trace), n) + if n in queue[..index] then 1 else 0)
      {
        ghost var before, begun := trace, api.log;
        var up := TimeIsUp(deadline);
        if up {
          StaysOpen(queue[..index], found, still, refused, queue[index..], canaries, trace);
          assert queue[..index] + queue[index..] == queue;
          never, late := queue[index..], true;
          if Distinct(queue) { Separate(queue[..index], never); }
          OpenIsPart(queue[..index], found, still, refused);
          return;
        }
        PrefixIsDistinct(queue, index, index + 1);
        found, refused, still :=
          ReprobeOne(queue[index..index + 1], queue[..index], found, refused, still, |old(trace)|);
        Steps(old(trace), old(api.log), before, begun, trace, api.log);
        index := index + 1;
      }
      assert queue[..|queue|] == queue && still + never == still;
      OpenIsPart(queue, found, still, refused);
    }

    /** What is on record since a point are requests for single names. */
    ghost predicate OneByOne(before: seq<Entry>, after: seq<Entry>) {
      before <= after && forall i :: |before| <= i < |after| ==> after[i].Probe? && after[i].kind == Alone
    }

    /** Each of some names was asked for on its own a number of times since a point. */
    ghost predicate AskedAlone(names: Names, before: seq<Entry>, after: seq<Entry>, times: nat) {
      forall n :: n in names ==> Alones(after, n) == Alones(before, n) + times
    }

    /** Ask for one name on its own, after what the ones before it came to. */
    method ReprobeOne(chunk: Names, ghost all: Names, found0: Values, refused0: Names, still0: Names, ghost mark: nat)
      returns (found: Values, refused: Names, still: Names)
      requires |chunk| == 1 && mark <= |trace|
      modifies this`trace, api
      ensures NoProofFailed(old(trace), trace) && Relogins(trace) == Relogins(old(trace))
      ensures Account(old(trace), old(api.log), trace, api.log)
      ensures OneByOne(old(trace), trace)
      ensures forall n :: Alones(trace, n) == Alones(old(trace), n) + if n in chunk then 1 else 0
      ensures Witnessed(found0, refused0, canaries, old(trace)) ==> Witnessed(found, refused, canaries, trace)
      ensures Covered(all, found0, still0, refused0, canaries, old(trace)) ==>
                Covered(all + chunk, found, still, refused, canaries, trace)
      ensures OpenAre(still0, canaries, old(trace), mark) ==> OpenAre(still, canaries, trace, mark)
      ensures AnswersOnlyWhatIsAsked() && Distinct(all + chunk) && Apart(all, found0, still0, refused0) ==>
                Apart(all + chunk, found, still, refused)
    {
      hide Relogins, Alones, Judged, Fits, Silent, GaveValue, DeclinedAlone, OpenAre;
      hide AnswersOnlyWhatIsAsked, Account, Apart, Covered, Witnessed, Distinct;
      found, refused, still := found0, refused0, still0;
      ghost var before := trace;
      var result, crashed;
      ghost var e;
      result, crashed, e := ProbeChunk(Alone, chunk);
      Counted(before, e);
      Later(all, found, still, refused, canaries, before, trace);
      match result {
        case Declined =>
          IsDeclined(all, found, still, refused, e, canaries, trace);
          refused := refused + chunk;
        case SessionLost =>
          StaysOpen(all, found, still, refused, chunk, canaries, trace);
          still := still + chunk;
        case Failed =>
          StaysOpen(all, found, still, refused, chunk, canaries, trace);
          still := still + chunk;
        case Answered(values) =>
          IsAnswered(all, found, still, refused, e, canaries, trace);
          found := found + values;
      }
      if OpenAre(still0, canaries, before, mark) { OpenMore(still0, still, canaries, before, mark, e); }
    }

    /** Ask for each open name on its own, round after round, until nothing is open, the
        rounds are spent, or time is up; `mark` is where the last round began. */
    method ReprobeSingly(names: Names, deadline: real)
      returns (found: Values, refused: Names, never: Names, late: bool, ghost dropped: Names, ghost mark: nat)
      modifies this, api
      ensures NoProofFailed(old(trace), trace) && Relogins(trace) == Relogins(old(trace))
      ensures Account(old(trace), old(api.log), trace, api.log)
      ensures Witnessed(found, refused, canaries, trace)
      ensures ticks >= old(ticks) && forall from: nat :: from <= old(ticks) ==>
                (RanOut(from, ticks, deadline) <==> late || RanOut(from, old(ticks), deadline))
      ensures Covered(names, found, dropped + never, refused, canaries, trace)
      ensures |old(trace)| <= mark <= |trace| && if late then OpenAre(dropped, canaries, trace, mark) else dropped == []
      ensures AnswersOnlyWhatIsAsked() && Distinct(names) ==>
                && Apart(names, found, dropped + never, refused)
                && (forall n :: Alones(trace, n) <= Alones(old(trace), n) + DISCOVERY_MAX_ROUNDS)
                && (!late ==> AskedAlone(never, old(trace), trace, DISCOVERY_MAX_ROUNDS))
                && (late ==> CutShort(dropped, never, old(trace), trace[..mark], trace))
    {
      hide Relogins, Alones, Judged, Fits, Silent, GaveValue, DeclinedAlone, Unsettled, OpenAre;
      hide AnswersOnlyWhatIsAsked, Account, RanOut, Apart, Covered, Witnessed, Distinct;
      found, refused, late, dropped, mark := map[], [], false, [], |trace|;
      var queue := names;
      var rounds := 0;
      AllOpen(names, canaries, trace);
      NoStep(trace, api.log);
      while queue != [] && rounds < DISCOVERY_MAX_ROUNDS
        invariant rounds <= DISCOVERY_MAX_ROUNDS && |old(trace)| <= mark <= |trace|
        invariant !late && dropped == []
        invariant ticks >= old(ticks) && forall from: nat :: from <= old(ticks) ==>
                    (RanOut(from, ticks, deadline) <==> RanOut(from, old(ticks), deadline))
        invariant Account(old(trace), old(api.log), trace, api.log)
        invariant NoProofFailed(old(trace), trace) && Relogins(trace) == Relogins(old(trace))
        invariant Witnessed(found, refused, canaries, trace)
        invariant Covered(names, found, queue, refused, canaries, trace)
        invariant AnswersOnlyWhatIsAsked() && Distinct(names) ==>
                    && Apart(names, found, queue, refused) && Distinct(queue)
                    && (forall n :: Alones(trace, n) <= Alones(old(trace), n) + rounds)
                    && AskedAlone(queue, old(trace), trace, rounds)
        decreases DISCOVERY_MAX_ROUNDS - rounds
      {
        mark := |trace|;
        ghost var before, begun := trace, api.log;
        var found2, refused2, still, unasked, up := ReprobeRound(queue, deadline);
        ghost var open := still + unasked;
        Steps(old(trace), old(api.log), before, begun, trace, api.log);
        assert trace[..mark] == before;
        Later(names, found, queue, refused, canaries, before, trace);
        OpenIsPart(queue, found2, open, refused2);
        Joined(names, found, queue, refused, found2, open, refused2, canaries, trace);
        found, refused := found + found2, refused + refused2;
        rounds := rounds + 1;
        if up {
          never, late, dropped := unasked, true, still;
          if Distinct(names) && AnswersOnlyWhatIsAsked() {
            assert AskedAlone(dropped + never, old(trace), before, rounds - 1);
          }
          return;
        }
        assert open == still;
        queue := still;
      }
      never := queue;
      assert dropped + never == never;
    }

    /** The deadline cut a round short: until then every name still open had been asked for alone
        once a round; of those, the round took up the first for the first time since, and did not
        reach the second. */
    ghost predicate CutShort(dropped: Names, never: Names, first: seq<Entry>, before: seq<Entry>, after: seq<Entry>) {
      && OneByOne(before, after) && (forall n :: Alones(after, n) <= Alones(before, n) + 1)
      && (exists rounds: nat :: rounds < DISCOVERY_MAX_ROUNDS && AskedAlone(dropped + never, first, before, rounds))
      && AskedAlone(dropped, before, after, 1) && AskedAlone(never, before, after, 0)
    }

    // ----- chunks ---------------------------------------------------------------------------------

    /** Ask for one chunk, after what the ones before it came to. */
    method TakeChunk(chunk: Names, ghost all: Names, found0: Values, retry0: Names, refused0: Names, blank0: nat,
                     used: nat, ghost mark: nat)
      returns (crashed: bool, found: Values, retry: Names, refusedEarly: Names, blankSinceCheck: nat, relogins: nat)
      requires chunk != [] && used <= DISCOVERY_RELOGIN_LIMIT && mark <= |trace|
      modifies this`trace, api
      ensures old(trace) < trace && Account(old(trace), old(api.log), trace, api.log)
      ensures var e := trace[|old(trace)|];
              && e.Probe? && e.kind == Shared && e.chunk == chunk
              && Placed(chunk, Judged(chunk, canaries, e.reply), found0, retry0, refused0, found, retry, refusedEarly)
              && (Doubted(e, blank0) ==> |trace| > |old(trace)| + 1 && trace[|old(trace)| + 1].AliveCheck?)
              && blankSinceCheck == (if !Blank(e) then blank0 else if Doubted(e, blank0) then 0 else blank0 + 1)
              && relogins == used
                             + if FoundLost(old(trace), trace, blank0) && used < DISCOVERY_RELOGIN_LIMIT then 1 else 0
      ensures Relogins(trace) == Relogins(old(trace)) + (relogins - used)
      ensures forall n :: Alones(trace, n) == Alones(old(trace), n)
      ensures if crashed then canaries != [] && trace != [] && ProofFailed(trace[|trace| - 1])
              else NoProofFailed(old(trace), trace)
      ensures !crashed && Witnessed(found0, refused0, canaries, old(trace)) ==>
                Witnessed(found, refusedEarly, canaries, trace)
      ensures !crashed && Covered(all, found0, retry0, refused0, canaries, old(trace)) ==>
                Covered(all + chunk, found, retry, refusedEarly, canaries, trace)
      ensures !crashed && OpenAre(retry0 + refused0, canaries, old(trace), mark) ==>
                OpenAre(retry + refusedEarly, canaries, trace, mark)
      ensures AnswersOnlyWhatIsAsked() && Distinct(all + chunk) && Apart(all, found0, retry0, refused0) ==>
                Apart(all + chunk, found, retry, refusedEarly)
    {
      hide Relogins, Alones, Judged, Fits, Silent, GaveValue, DeclinedAlone, OpenAre;
      hide AnswersOnlyWhatIsAsked, Account, Apart, Covered, Witnessed, Distinct;
      var result;
      ghost var e;
      found, retry, refusedEarly, result, e := PlaceChunk(chunk, all, found0, retry0, refused0, mark);
      ghost var probed, begun := trace, api.log;
      crashed, blankSinceCheck, relogins := SeeToSession(chunk, result, blank0, used, old(trace), e);
      Steps(old(trace), old(api.log), probed, begun, trace, api.log);
      if crashed { return; }
      Later(all + chunk, found, retry, refusedEarly, canaries, probed, trace);
      if OpenAre(retry + refusedEarly, canaries, probed, mark) {
        OpenSame(retry + refusedEarly, canaries, probed, trace, mark);
      }
    }

    /** After a chunk: ask about the session where its answer leaves that in doubt, and make it
        anew where it was lost. */
    method SeeToSession(chunk: Names, result: Result, blank0: nat, used: nat, ghost before: seq<Entry>, ghost e: Entry)
      returns (crashed: bool, blankSinceCheck: nat, relogins: nat)
      requires trace == before + [e] && e.Probe? && e.chunk == chunk && result == Judged(chunk, canaries, e.reply)
      requires used <= DISCOVERY_RELOGIN_LIMIT
      modifies this`trace, api
      ensures old(trace) <= trace && Account(old(trace), old(api.log), trace, api.log)
      ensures Doubted(e, blank0) ==> |trace| > |old(trace)| && trace[|old(trace)|].AliveCheck?
      ensures blankSinceCheck == (if !Blank(e) then blank0 else if Doubted(e, blank0) then 0 else blank0 + 1)
      ensures relogins == used + if FoundLost(before, trace, blank0) && used < DISCOVERY_RELOGIN_LIMIT then 1 else 0
      ensures Relogins(trace) == Relogins(old(trace)) + (relogins - used)
      ensures forall n :: Alones(trace, n) == Alones(old(trace), n)
      ensures forall i :: |old(trace)| <= i < |trace| ==> Nameless(trace[i])
      ensures if crashed then canaries != [] && trace != [] && ProofFailed(trace[|trace| - 1])
              else NoProofFailed(old(trace), trace)
    {
      hide Relogins, Alones, Judged, Fits, Account, AnswersOnlyWhatIsAsked;
      crashed, relogins, blankSinceCheck := false, used, blank0;
      ghost var checked, asked := trace, api.log;
      NoStep(trace, api.log);
      var lost := result.SessionLost?;
      if result.Answered? && result.values == map[] && |chunk| > 1 {
        blankSinceCheck := blankSinceCheck + 1;
        if canaries == [] && blankSinceCheck >= CANARY_FALLBACK_EVERY {
          blankSinceCheck := 0;
          var yes := SessionStillAlive();
          Counted(checked, AliveCheck(yes));
          checked, asked := trace, api.log;
          lost := !yes;
        }
      }
      assert lost <==> FoundLost(before, checked, blank0);
      if lost {
        crashed, relogins := ReloginOnce(used);
        Steps(old(trace), old(api.log), checked, asked, trace, api.log);
      }
    }

    /** A chunk of several names that was answered with no value. */
    predicate Blank(e: Entry) {
      e.Probe? && |e.chunk| > 1 && Judged(e.chunk, canaries, e.reply) == Answered(map[])
    }

    /** One blank chunk too many, without a canary: the session is asked about. */
    predicate Doubted(e: Entry, blanks: nat) { Blank(e) && canaries == [] && blanks + 1 >= CANARY_FALLBACK_EVERY }

    /** A chunk showed the session lost: by its canaries, or where asked about without any. */
    predicate FoundLost(before: seq<Entry>, after: seq<Entry>, blanks: nat)
      requires |before| < |after|
    {
      var e := after[|before|];
      || (e.Probe? && Judged(e.chunk, canaries, e.reply) == SessionLost)
      || (Doubted(e, blanks) && |before| + 1 < |after| && after[|before| + 1] == AliveCheck(false))
    }

    /** Where the names of a chunk go: a lone name declined is declined; what was answered is found, and
        nothing of it asked again, but for several names answered with nothing; all others are. */
    ghost predicate Placed(chunk: Names, result: Result, found0: Values, retry0: Names, refused0: Names,
                           found: Values, retry: Names, refused: Names)
    {
      match result
      case Declined =>
        && found == found0
        && if |chunk| == 1 then refused == refused0 + chunk && retry == retry0
           else refused == refused0 && retry == retry0 + chunk
      case Answered(values) =>
        && refused == refused0 && found == found0 + values
        && retry == if values == map[] && |chunk| > 1 then retry0 + chunk else retry0
      case _ => found == found0 && refused == refused0 && retry == retry0 + chunk
    }

    /** Put a chunk and place its names. */
    method PlaceChunk(chunk: Names, ghost all: Names, found0: Values, retry0: Names, refused0: Names, ghost mark: nat)
      returns (found: Values, retry: Names, refusedEarly: Names, result: Result, ghost e: Entry)
      requires chunk != [] && mark <= |trace|
      modifies this`trace, api
      ensures trace == old(trace) + [e] && e.Probe? && e.kind == Shared && e.chunk == chunk
      ensures result == Judged(chunk, canaries, e.reply) && NoProofFailed(old(trace), trace)
      ensures Placed(chunk, result, found0, retry0, refused0, found, retry, refusedEarly)
      ensures Account(old(trace), old(api.log), trace, api.log)
      ensures Relogins(trace) == Relogins(old(trace))
      ensures forall n :: Alones(trace, n) == Alones(old(trace), n)
      ensures Witnessed(found0, refused0, canaries, old(trace)) ==> Witnessed(found, refusedEarly, canaries, trace)
      ensures Covered(all, found0, retry0, refused0, canaries, old(trace)) ==>
                Covered(all + chunk, found, retry, refusedEarly, canaries, trace)
      ensures OpenAre(retry0 + refused0, canaries, old(trace), mark) ==>
                OpenAre(retry + refusedEarly, canaries, trace, mark)
      ensures AnswersOnlyWhatIsAsked() && Distinct(all + chunk) && Apart(all, found0, retry0, refused0) ==>
                Apart(all + chunk, found, retry, refusedEarly)
    {
      hide Relogins, Alones, Judged, Fits, Silent, GaveValue, DeclinedAlone, OpenAre;
      hide AnswersOnlyWhatIsAsked, Account, Apart, Covered, Witnessed, Distinct;
      found, retry, refusedEarly := found0, retry0, refused0;
      ghost var before := trace;
      var crashed;
      result, crashed, e := ProbeChunk(Shared, chunk);
      Counted(before, e);
      Later(all, found, retry, refusedEarly, canaries, before, trace);
      StaysOpen(all, found, retry, refusedEarly, chunk, canaries, trace);
      if result == Declined && |chunk| == 1 {
        IsDeclined(all, found, retry, refusedEarly, e, canaries, trace);
        refusedEarly := refusedEarly + chunk;
      } else if result.Answered? && (result.values != map[] || |chunk| == 1) {
        IsAnswered(all, found, retry, refusedEarly, e, canaries, trace);
        found := found + result.values;
      } else {
        retry := retry + chunk;
      }
      if OpenAre(retry0 + refused0, canaries, before, mark) {
        OpenMore(retry0 + refused0, retry + refusedEarly, canaries, before, mark, e);
      }
    }

    /** Ask for the names in chunks.  When time is up, the chunks not reached are the rest, and
        what was queued or declined so far is dropped. */
    method ProbeChunks(names: Names, chunkSize: nat, deadline: real)
      returns (crashed: bool, late: bool, found: Values, retry: Names, refusedEarly: Names, rest: Names,
               ghost dropped: Names)
      requires chunkSize > 0
      modifies this, api
      ensures Account(old(trace), old(api.log), trace, api.log)
      ensures |old(trace)| <= |trace| && Relogins(trace) <= Relogins(old(trace)) + DISCOVERY_RELOGIN_LIMIT
      ensures forall n :: Alones(trace, n) == Alones(old(trace), n)
      ensures if crashed then canaries != [] && trace != [] && ProofFailed(trace[|trace| - 1])
              else NoProofFailed(old(trace), trace)
      ensures Witnessed(found, refusedEarly, canaries, trace) || crashed
      ensures ticks >= old(ticks) && (!crashed ==> (late <==> RanOut(old(ticks), ticks, deadline)))
      ensures !crashed && !late ==> rest == [] && dropped == []
      ensures !crashed && late ==> retry == [] && refusedEarly == [] && OpenAre(dropped, canaries, trace, |old(trace)|)
      ensures !crashed ==> Covered(names, found, if late then dropped + rest else retry, refusedEarly, canaries, trace)
      ensures !crashed ==> (late <==> CutInChunks(old(ticks), chunkSize, |names|, deadline))
      ensures !crashed && late ==> NotReached(rest, old(ticks), chunkSize, names, deadline)
      ensures AnswersOnlyWhatIsAsked() && Distinct(names) && !crashed ==>
                Apart(names, found, if late then dropped + rest else retry, refusedEarly)
    {
      hide Relogins, Alones, Judged, Fits, Silent, GaveValue, DeclinedAlone, Unsettled, OpenAre;
      hide AnswersOnlyWhatIsAsked, Account, RanOut, FirstLate, Apart, Covered, Witnessed, Distinct;
      late, crashed, rest, dropped := false, false, [], [];
      found, retry, refusedEarly := map[], [], [];
      ghost var n := 0;
      NotYet(deadline);
      var blankSinceCheck: nat, relogins: nat, start := 0, 0, 0;
      Nothing(canaries, trace);
      NothingOpen(canaries, trace);
      NoStep(trace, api.log);
      assert names[..0] == [] && retry + refusedEarly == [];
      while start < |names|
        invariant ticks >= old(ticks) && !RanOut(old(ticks), ticks, deadline)
        invariant ticks == old(ticks) + n && start <= n * chunkSize && (start < |names| ==> start == n * chunkSize)
        invariant start <= |names| && relogins <= DISCOVERY_RELOGIN_LIMIT
        invariant Account(old(trace), old(api.log), trace, api.log)
        invariant NoProofFailed(old(trace), trace) && Relogins(trace) == Relogins(old(trace)) + relogins
        invariant forall n :: Alones(trace, n) == Alones(old(trace), n)
        invariant Witnessed(found, refusedEarly, canaries, trace)
        invariant Covered(names[..start], found, retry, refusedEarly, canaries, trace)
        invariant OpenAre(retry + refusedEarly, canaries, trace, |old(trace)|)
        invariant AnswersOnlyWhatIsAsked() && Distinct(names) ==> Apart(names[..start], found, retry, refusedEarly)
      {
        var up := TimeIsUp(deadline);
        if up {
          DropsDeclined(names[..start], found, retry, refusedEarly, canaries, trace);
          dropped, rest := retry + refusedEarly, names[start..];
          StaysOpen(names[..start], found, dropped, [], rest, canaries, trace);
          assert names[..start] + rest == names;
          ItIsFirst(old(ticks), n, deadline);
          forall k | FirstLate(old(ticks), k, deadline) ensures k == n { OnlyOneIsFirst(old(ticks), k, n, deadline); }
          retry, refusedEarly, late := [], [], true;
          return;
        }
        ghost var before, begun := trace, api.log;
        var end := if start + chunkSize <= |names| then start + chunkSize else |names|;
        var chunk := names[start..end];
        PrefixIsDistinct(names, start, end);
        crashed, found, retry, refusedEarly, blankSinceCheck, relogins :=
          TakeChunk(chunk, names[..start], found, retry, refusedEarly, blankSinceCheck, relogins, |old(trace)|);
        Steps(old(trace), old(api.log), before, begun, trace, api.log);
        if crashed { return; }
        start, n := end, n + 1;
        NextChunk(n, chunkSize);
      }
      forall k: nat | FirstLate(old(ticks), k, deadline) ensures k * chunkSize >= |names| {
        OnlyOneIsFirst(old(ticks), k, n, deadline);
        MoreChunks(k, n, chunkSize);
      }
      assert names[..|names|] == names;
    }

    /** Sort every name, tolerating anything that goes wrong with one chunk.

        The answered, unasked and declined names never overlap, and a name that is none of them is
        silent or was dropped.  None is dropped unless time ran out; then the dropped are exactly
        the names of the requests left unsettled in the chunks, or in the round, that it cut short.
        A name left unasked with time to spare was asked for alone in every round; when time ran
        out during the chunks, the names unasked are those of the chunks not reached, and none is
        declined.  The pass is lost only to a failed proof of a session, and makes three sessions
        anew at most, with two logins at most for each request besides.

        What is on record is what the log has of it, request by request; so on a fresh pass a name
        that is silent was asked for in vain in one of its exchanges. */
    method ProbeNames(names: Names, chunkSize: nat, deadline: real)
      returns (r: Outcome, late: bool, ghost dropped: Names, ghost mark: nat)
      requires chunkSize > 0
      modifies this, api
      ensures |old(trace)| <= mark <= |trace| && Account(old(trace), old(api.log), trace, api.log)
      ensures Logins(api.log) - Logins(old(api.log)) <= Allowance(trace) - Allowance(old(trace))
      ensures Relogins(trace) <= Relogins(old(trace)) + DISCOVERY_RELOGIN_LIMIT
      ensures old(trace) == [] && r.Sorted? ==>
                SortedByLog(names, r.found, dropped + r.unasked, r.refused, |old(api.log)|, api.log)
      ensures if r.Crashed? then canaries != [] && trace != [] && ProofFailed(trace[|trace| - 1])
              else NoProofFailed(old(trace), trace)
      ensures r.Sorted? ==> Witnessed(r.found, r.refused, canaries, trace)
      ensures r.Sorted? ==> (late <==> RanOut(old(ticks), ticks, deadline))
      ensures r.Sorted? && CutInChunks(old(ticks), chunkSize, |names|, deadline) ==>
                && late && r.refused == [] && mark == |old(trace)|
                && NotReached(r.unasked, old(ticks), chunkSize, names, deadline)
      ensures r.Sorted? ==> Covered(names, r.found, dropped + r.unasked, r.refused, canaries, trace)
      ensures r.Sorted? ==> if late then OpenAre(dropped, canaries, trace, mark) else dropped == []
      ensures AnswersOnlyWhatIsAsked() && Distinct(names) && r.Sorted? ==>
                && Apart(names, r.found, r.unasked, r.refused)
                && (forall n :: n in dropped ==> n !in r.found && n !in r.unasked && n !in r.refused)
                && (forall n :: Alones(trace, n) <= Alones(old(trace), n) + DISCOVERY_MAX_ROUNDS)
                && (!late ==> AskedAlone(r.unasked, old(trace), trace, DISCOVERY_MAX_ROUNDS))
                && (late && !CutInChunks(old(ticks), chunkSize, |names|, deadline) ==>
                      CutShort(dropped, r.unasked, old(trace), trace[..mark], trace))
    {
      hide Relogins, Alones, Judged, Fits, Silent, GaveValue, DeclinedAlone, Unsettled, OpenAre;
      hide AnswersOnlyWhatIsAsked, Account, RanOut, FirstLate, Apart, Covered, Witnessed, Distinct;
      var crashed, found, retry, refusedEarly, rest;
      crashed, late, found, retry, refusedEarly, rest, dropped := ProbeChunks(names, chunkSize, deadline);
      mark := |old(trace)|;
      ghost var before, begun := trace, api.log;
      AccountSo(old(trace), old(api.log), before, begun);
      if crashed { return Crashed, late, dropped, mark; }
      if late {
        r := Sorted(found, rest, []);
        if AnswersOnlyWhatIsAsked() && Distinct(names) { FewerOpen(names, found, dropped, rest, []); }
        if old(trace) == [] { RecordIsLog(names, found, dropped + rest, [], old(api.log), trace, api.log); }
        return;
      }
      var foundAgain, refused, never;
      foundAgain, refused, never, late, dropped, mark := ReprobeSingly(retry, deadline);
      Steps(old(trace), old(api.log), before, begun, trace, api.log);
      AccountSo(old(trace), old(api.log), trace, api.log);
      Later(names, found, retry, refusedEarly, canaries, before, trace);
      OpenIsPart(names, found, retry, refusedEarly);
      Joined(names, found, retry, refusedEarly, foundAgain, dropped + never, refused, canaries, trace);
      r := Sorted(found + foundAgain, never, refusedEarly + refused);
      if AnswersOnlyWhatIsAsked() && Distinct(names) {
        FewerOpen(names, r.found, dropped, never, r.refused);
        if late { SameStart(dropped, never, before, old(trace), trace[..mark], trace); }
      }
      if old(trace) == [] { RecordIsLog(names, r.found, dropped + never, r.refused, old(api.log), trace, api.log); }
    }

    lemma RecordIsLog(names: Names, found: Values, open: Names, refused: Names,
                      begun: Log, after: seq<Entry>, ended: Log)
      requires Account([], begun, after, ended) && Covered(names, found, open, refused, canaries, after)
      requires Witnessed(found, refused, canaries, after)
      ensures SortedByLog(names, found, open, refused, |begun|, ended)
    {
      hide Account, GaveNothing, GaveValue, DeclinedAlone, AskedInVain, GivenOnLog, DeclinedOnLog;
      forall n | n in names && n !in found && n !in open && n !in refused
                 && n !in canaries && n !in NOT_ROUTER_FIELDS
        ensures AskedInVain(n, |begun|, ended)
      {
        var e :| e in after && GaveNothing(e, n, canaries);
        var i :| 0 <= i < |after| && after[i] == e;
        SilenceIsOnTheLog([], begun, after, ended, i, n);
      }
      forall n | n in found ensures GivenOnLog(n, found[n], |begun|, ended) {
        var e :| e in after && GaveValue(e, n, found[n], canaries);
        var i :| 0 <= i < |after| && after[i] == e;
        ValueIsOnTheLog([], begun, after, ended, i, n, found[n]);
      }
      forall n | n in refused ensures DeclinedOnLog(n, |begun|, ended) {
        var e :| e in after && DeclinedAlone(e, n, canaries);
        var i :| 0 <= i < |after| && after[i] == e;
        DeclineIsOnTheLog([], begun, after, ended, i, n);
      }
    }

    lemma SameStart(dropped: Names, never: Names, first: seq<Entry>, first2: seq<Entry>,
                    before: seq<Entry>, after: seq<Entry>)
      requires CutShort(dropped, never, first, before, after)
      requires forall n :: Alones(first, n) == Alones(first2, n)
      ensures CutShort(dropped, never, first2, before, after)
    {
      hide Alones;
      var rounds: nat :| rounds < DISCOVERY_MAX_ROUNDS && AskedAlone(dropped + never, first, before, rounds);
      assert AskedAlone(dropped + never, first2, before, rounds);
    }
  }

  lemma NextChunk(n: nat, size: nat)
    requires n > 0
    ensures n * size == (n - 1) * size + size
  {}

  lemma MoreChunks(k: nat, n: nat, size: nat)
    requires k >= n
    ensures k * size >= n * size
  {}

  lemma Nothing(canaries: Names, trace: seq<Entry>)
    ensures Apart([], map[], [], []) && Covered([], map[], [], [], canaries, trace)
            && Witnessed(map[], [], canaries, trace)
  {}

  lemma AllOpen(names: Names, canaries: Names, trace: seq<Entry>)
    ensures Covered(names, map[], names, [], canaries, trace) && Witnessed(map[], [], canaries, trace)
    ensures Distinct(names) ==> Apart(names, map[], names, [])
  {}

  lemma OpenIsPart(all: Names, found: Values, open: Names, refused: Names)
    ensures Apart(all, found, open, refused) ==> Distinct(open) && forall n :: n in open ==> n in all
  {}

  /** Why silence is promised only where time did not run out: two names, the first request
      lost, and the time up before the second.  The first name is in none of the three lists,
      though nothing was ever learned of it. */
  method TimeLimitLosesAName() returns (p: Pass, names: Names, r: Outcome)
    ensures names == ["first", "second"] && r.Sorted?
    ensures "first" !in r.found && "first" !in r.unasked && "first" !in r.refused
    ensures !Silent("first", p.canaries, p.trace)
  {
    var api := new Api((n: nat) => (call: Call) => Lost, (n: nat) => NoReply, (n: nat) => 1.0, "secret", "", None,
                       false, {}, "loginfo", "ok", [], [], {});
    p := new Pass(api, (t: nat) => if t == 0 then 0.0 else 10.0, [], []);
    names := ["first", "second"];
    var late;
    ghost var dropped, mark;
    r, late, dropped, mark := p.ProbeNames(names, 1, 5.0);
    hide *;
    p.SecondIsLate(5.0);
    assert 1 * 1 < |names| && names[1 * 1..] == ["second"];
    if r.Sorted? { p.NothingLearned([], r.found, r.refused, p.trace, api.log); }
  }
}
