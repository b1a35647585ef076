/** What a `200 OK` answer proves about the session.

    The router never reports a dead session: it answers every key that needs one as an
    empty value.  `Classify` reads an answer against the keys served without a session;
    the theorems say exactly which dead sessions a batch poll notices. */
module Session {
  import opened Options
  import Batch

  type Payload = map<string, string>

  const SENTINELS := {"wan_connect_status", "ppp_status"}
  const CONTRACT_KEYS := {"network_type", "strBearer", "signalbar", "system_uptime", "realtime_time",
                          "flux_realtime_time", "wan_connect_status", "ppp_status"}
  const UNAUTHENTICATED_KEYS := {"imei", "model_name", "wa_inner_version", "opms_wan_auto_mode", "opms_wan_mode"}
  const VERSION_SPELLINGS := {"wa_inner_version", "wa_version", "inner_version"}
  const RD_SPELLINGS := {"RD", "rd"}

  datatype Verdict = Live | Expired | NotReady | Undecidable

  /** The keys served without a session, widened to the other spellings of the same value. */
  function WithAliases(measured: set<string>): set<string> {
    measured
    + (if "wa_inner_version" in measured then VERSION_SPELLINGS else {})
    + (if "RD" in measured then RD_SPELLINGS else {})
  }

  function CountAbsent(wanted: seq<string>, payload: Payload): nat {
    if wanted == [] then 0
    else (if wanted[0] in payload then 0 else 1) + CountAbsent(wanted[1..], payload)
  }

  function Wanted(requested: seq<string>, unauthenticated: set<string>): seq<string> {
    if requested == [] then []
    else if requested[0] in unauthenticated then Wanted(requested[1..], unauthenticated)
    else [requested[0]] + Wanted(requested[1..], unauthenticated)
  }

  // What the two count, by position in the request.

  function Needed(requested: seq<string>, wide: set<string>): set<nat> {
    set i: nat | i < |requested| && requested[i] !in wide
  }

  function Missed(requested: seq<string>, wide: set<string>, payload: Payload): set<nat> {
    set i: nat | i < |requested| && requested[i] !in wide && requested[i] !in payload
  }

  /** Positions and the same positions one further on. */
  ghost predicate Shifted(s: set<nat>, t: set<nat>) { forall i: nat :: i in s <==> i + 1 in t }

  lemma {:induction false} MovedUp(s: set<nat>, t: set<nat>)
    requires Shifted(s, t)
    ensures |t| == |s| + if 0 in t then 1 else 0
    decreases |s|
  {
    hide Shifted;
    if s == {} {
      OnlyZero(t);
    } else {
      var i :| i in s;
      ShiftedLess(s, t, i);
      MovedUp(s - {i}, t - {i + 1});
    }
  }

  lemma ShiftedLess(s: set<nat>, t: set<nat>, i: nat)
    requires Shifted(s, t) && i in s
    ensures i + 1 in t && Shifted(s - {i}, t - {i + 1})
  {
  }

  lemma OnlyZero(t: set<nat>)
    requires Shifted({}, t)
    ensures t == if 0 in t then {0} else {}
  {
    var none: set<nat> := {};
    forall i: nat | i != 0 ensures i !in t {
      var j: nat := i - 1;
      assert j !in none;
    }
  }

  /** They are the positions of the names that need a session, and of those of them that did not
      come back. */
  lemma {:induction false} AbsentAreCounted(requested: seq<string>, wide: set<string>, payload: Payload)
    ensures |Wanted(requested, wide)| == |Needed(requested, wide)|
    ensures CountAbsent(Wanted(requested, wide), payload) == |Missed(requested, wide, payload)|
  {
    if requested == [] {
      assert Needed(requested, wide) == {} && Missed(requested, wide, payload) == {};
    } else {
      AbsentAreCounted(requested[1..], wide, payload);
      MovedUp(Needed(requested[1..], wide), Needed(requested, wide));
      MovedUp(Missed(requested[1..], wide, payload), Missed(requested, wide, payload));
    }
  }

  /** More than half of the keys asked for that need a session did not come back. */
  predicate MostlyAbsent(requested: Option<seq<string>>, payload: Payload, unauthenticated: set<string>) {
    requested.Some? &&
    var wanted := Wanted(requested.value, unauthenticated);
    wanted != [] && 2 * CountAbsent(wanted, payload) > |wanted|
  }

  function Classify(payload: Payload, requested: Option<seq<string>>, measured: set<string>): Verdict {
    var unauthenticated := WithAliases(measured);
    var needing := payload.Keys - unauthenticated;
    var served := payload.Keys * unauthenticated;
    if needing == {} then Undecidable
    else if exists k :: k in needing && payload[k] != "" then Live
    else if served == {} then Undecidable
    else if forall k :: k in served ==> payload[k] == "" then NotReady
    else if MostlyAbsent(requested, payload, unauthenticated) then Undecidable
    else Expired
  }

  /** Whether a verdict on this request could mean anything. */
  predicate Classifiable(chunk: seq<string>, measured: set<string>) {
    var names := set k | k in chunk;
    names - measured != {} && (names * SENTINELS != {} || names * measured != {})
  }

  /** What is done about an answer: it stands, the session is renewed and the request put
      again, or one of two errors is raised. */
  datatype Disposal = Stands | Renew | Unreachable | AuthFailed

  predicate Blank(payload: Payload) { forall k :: k in payload ==> payload[k] == "" }

  predicate SaysUnauthorized(payload: Payload) {
    || ("result" in payload && payload["result"] in {"session expired", "unauth", "fail"})
    || ("status" in payload && payload["status"] == "fail")
  }

  function SessionRejected(payload: Payload, requested: Option<seq<string>>, measured: set<string>,
                           classify: bool, authenticated: bool, retry: bool, afterRelogin: bool): Disposal
  {
    var verdict := if classify then Classify(payload, requested, measured) else Live;
    var expired := verdict == Expired || (verdict == Undecidable && payload != map[] && Blank(payload));
    var denied := SaysUnauthorized(payload);
    if verdict == NotReady && authenticated then Unreachable
    else if (expired || denied) && authenticated then
      if retry then Renew
      else if afterRelogin && !denied then Unreachable
      else AuthFailed
    else Stands
  }

  // What an answer shows, from its payload and the request alone.

  /** Keys on both sides of the widened set came back, and all of them blank: a router that is
      still starting up. */
  predicate StartingUp(payload: Payload, wide: set<string>) {
    && Blank(payload) && (exists k :: k in payload && k in wide) && (exists k :: k in payload && k !in wide)
  }

  /** At most half of the names asked for that need a session are missing. */
  ghost predicate CameBack(requested: Option<seq<string>>, payload: Payload, wide: set<string>) {
    requested.Some? ==> 2 * |Missed(requested.value, wide, payload)| <= |Needed(requested.value, wide)|
  }

  /** Every key that needs a session came back blank while another has a value; or all there is
      came back blank, and all on one side. */
  ghost predicate LooksDead(payload: Payload, requested: Option<seq<string>>, wide: set<string>) {
    || (&& (exists k :: k in payload && k !in wide) && (forall k :: k in payload && k !in wide ==> payload[k] == "")
        && (exists k :: k in payload && k in wide && payload[k] != "")
        && CameBack(requested, payload, wide))
    || (payload != map[] && Blank(payload)
        && ((forall k :: k in payload ==> k in wide) || (forall k :: k in payload ==> k !in wide)))
  }

  /** What is done about any answer.  A router still starting up is never taken for a dead
      session, whatever the request; a session is renewed exactly where the request may be put
      again, and the answer looks dead or says so in words. */
  lemma {:induction false} RejectedExactly(
    payload: Payload, requested: Option<seq<string>>, measured: set<string>,
    classify: bool, authenticated: bool, retry: bool, afterRelogin: bool)
    ensures var wide, denied := WithAliases(measured), SaysUnauthorized(payload);
            SessionRejected(payload, requested, measured, classify, authenticated, retry, afterRelogin) ==
            if !authenticated then Stands
            else if classify && StartingUp(payload, wide) then Unreachable
            else if !denied && !(classify && LooksDead(payload, requested, wide)) then Stands
            else if retry then Renew
            else if afterRelogin && !denied then Unreachable
            else AuthFailed
  {
    if classify {
      hide SaysUnauthorized;
      ClassifiedExactly(payload, requested, measured);
    }
  }

  lemma ClassifiedExactly(payload: Payload, requested: Option<seq<string>>, measured: set<string>)
    ensures var verdict, wide := Classify(payload, requested, measured), WithAliases(measured);
            && (verdict == NotReady <==> StartingUp(payload, wide))
            && (verdict == Expired || (verdict == Undecidable && payload != map[] && Blank(payload))
                <==> LooksDead(payload, requested, wide))
  {
    var wide := WithAliases(measured);
    MostlyAbsentIsNotBack(payload, requested, wide);
    hide MostlyAbsent, CameBack, WithAliases;
    var needing, served := payload.Keys - wide, payload.Keys * wide;
    assert forall k :: k in needing <==> k in payload && k !in wide;
    assert forall k :: k in served <==> k in payload && k in wide;
    if needing != {} { var k :| k in needing; }
    if served != {} { var k :| k in served; }
  }

  lemma MostlyAbsentIsNotBack(payload: Payload, requested: Option<seq<string>>, wide: set<string>)
    ensures MostlyAbsent(requested, payload, wide) <==> !CameBack(requested, payload, wide)
  {
    if requested.Some? {
      AbsentAreCounted(requested.value, wide, payload);
      assert Missed(requested.value, wide, payload) <= Needed(requested.value, wide);
      FewerIn(Missed(requested.value, wide, payload), Needed(requested.value, wide));
    }
  }

  lemma {:induction false} FewerIn(s: set<nat>, t: set<nat>)
    requires s <= t
    ensures |s| <= |t|
  {
    assert t == s + (t - s);
  }

  /** The set is widened by the other spellings of what it holds, and by nothing else; so a read of
      the spellings of one such value, answered with it under any of them, is never taken for a
      dead session or for a router starting up. */
  lemma SpellingsProveNothing(payload: Payload, requested: Option<seq<string>>, measured: set<string>,
                              classify: bool, authenticated: bool, retry: bool, afterRelogin: bool)
    ensures forall k :: k in WithAliases(measured) <==>
              || k in measured
              || ("wa_inner_version" in measured && (k == "wa_version" || k == "inner_version"))
              || ("RD" in measured && k == "rd")
    ensures !Blank(payload) && !SaysUnauthorized(payload)
            && (|| ("wa_inner_version" in measured && payload.Keys <= VERSION_SPELLINGS)
                || ("RD" in measured && payload.Keys <= RD_SPELLINGS)) ==>
              SessionRejected(payload, requested, measured, classify, authenticated, retry, afterRelogin) == Stands
  {
    RejectedExactly(payload, requested, measured, classify, authenticated, retry, afterRelogin);
    hide SessionRejected, SaysUnauthorized, CameBack;
  }

  /** A freshly made session is never blamed for the shape of an answer. */
  lemma FreshSessionIsNotBlamed(payload: Payload, requested: Option<seq<string>>, measured: set<string>,
                                classify: bool, authenticated: bool)
    ensures SessionRejected(payload, requested, measured, classify, authenticated, false, true) == AuthFailed
            <==> authenticated && SaysUnauthorized(payload)
                 && !(classify && Classify(payload, requested, measured) == NotReady)
  {
  }

  // ----- a batch poll against a router that answers each key on its own -----------------

  /** What the first try of one chunk of a poll comes to. */
  function ChunkDisposal(chunk: seq<string>, measured: set<string>, value: string -> string): Disposal {
    SessionRejected(Batch.Answer(value, chunk), Some(chunk), measured,
                    Classifiable(chunk, measured), true, true, false)
  }

  datatype Outcome = Returned(payload: Payload) | Interrupted(why: Disposal)

  /** A poll up to its first renewal or error. */
  function BatchRead(chunks: seq<seq<string>>, measured: set<string>, value: string -> string): Outcome {
    if chunks == [] then Returned(map[])
    else
      var d := ChunkDisposal(chunks[0], measured, value);
      if d != Stands then Interrupted(d)
      else
        match BatchRead(chunks[1..], measured, value)
        case Returned(_) => Returned(Batch.Merged(value, chunks))
        case Interrupted(why) => Interrupted(why)
  }

  /** The keys a chunk's verdict can rest on: a value outside the widened set, or, for a
      chunk wholly inside it, any value. */
  ghost predicate ShowsLife(chunk: seq<string>, measured: set<string>, value: string -> string) {
    var wide := WithAliases(measured);
    exists k :: k in chunk && value(k) != "" && (k !in wide || forall o :: o in chunk ==> o in wide)
  }

  ghost predicate NoOutcomeKeys(chunk: seq<string>) { "result" !in chunk && "status" !in chunk }

  /** Every key of a chunk is blank, on both sides of the widened set. */
  ghost predicate ShowsNothing(chunk: seq<string>, measured: set<string>, value: string -> string) {
    var wide := WithAliases(measured);
    && (forall k :: k in chunk ==> value(k) == "")
    && (exists k :: k in chunk && k in wide) && (exists k :: k in chunk && k !in wide)
  }

  /** One chunk's answer stands exactly when it was not judged or shows life; a router that shows
      nothing at all is left alone, and only else is the session renewed. */
  lemma ChunkStandsExactly(chunk: seq<string>, measured: set<string>, value: string -> string)
    requires NoOutcomeKeys(chunk)
    ensures ChunkDisposal(chunk, measured, value) ==
            if !Classifiable(chunk, measured) || ShowsLife(chunk, measured, value) then Stands
            else if ShowsNothing(chunk, measured, value) then Unreachable
            else Renew
  {
    var payload, wide := Batch.Answer(value, chunk), WithAliases(measured);
    RejectedExactly(payload, Some(chunk), measured, Classifiable(chunk, measured), true, true, false);
    hide SessionRejected, WithAliases, SaysUnauthorized;
    assert forall k :: k in payload <==> k in chunk;
    assert !SaysUnauthorized(payload) by { NoWordsIn(payload); }
    assert CameBack(Some(chunk), payload, wide) by { assert Missed(chunk, wide, payload) == {}; }
    if Classifiable(chunk, measured) {
      var k :| k in (set k | k in chunk) - measured;
      LifeExactly(chunk, measured, value);
    }
  }

  /** What an answer to each key of a chunk shows is what the values show. */
  lemma LifeExactly(chunk: seq<string>, measured: set<string>, value: string -> string)
    requires chunk != []
    ensures var payload, wide := Batch.Answer(value, chunk), WithAliases(measured);
            && (StartingUp(payload, wide) <==> ShowsNothing(chunk, measured, value))
            && (CameBack(Some(chunk), payload, wide) ==>
                  (ShowsLife(chunk, measured, value)
                   <==> !StartingUp(payload, wide) && !LooksDead(payload, Some(chunk), wide)))
  {
    hide WithAliases, CameBack;
    var payload, wide := Batch.Answer(value, chunk), WithAliases(measured);
    assert forall k :: k in payload <==> k in chunk;
    assert chunk[0] in payload;
  }

  /** The words are looked for under two keys, either of which is enough. */
  lemma WordsAreUnderTwoKeys(payload: Payload)
    ensures forall v :: SaysUnauthorized(map["result" := v]) <==> v == "session expired" || v == "unauth" || v == "fail"
    ensures forall v :: SaysUnauthorized(map["status" := v]) <==> v == "fail"
    ensures SaysUnauthorized(payload) <==>
              exists k :: k in {"result", "status"} && k in payload && SaysUnauthorized(map[k := payload[k]])
  {
    assert |"result"| == |"status"| && "result"[0] != "status"[0];
  }

  lemma NoWordsIn(payload: Payload)
    requires "result" !in payload && "status" !in payload
    ensures !SaysUnauthorized(payload)
  {
  }

  /** A poll returns a payload exactly when every chunk it judged shows life, and then it
      returns the answer to the unsplit list. */
  lemma {:induction false} BatchReturnsExactly(chunks: seq<seq<string>>, measured: set<string>, value: string -> string)
    requires forall c :: c in chunks ==> NoOutcomeKeys(c)
    ensures BatchRead(chunks, measured, value).Returned?
            <==> forall c :: c in chunks ==> !Classifiable(c, measured) || ShowsLife(c, measured, value)
    ensures BatchRead(chunks, measured, value).Returned? ==>
              BatchRead(chunks, measured, value).payload == Batch.Answer(value, Batch.Flatten(chunks))
  {
    if chunks != [] {
      ChunkStandsExactly(chunks[0], measured, value);
      BatchReturnsExactly(chunks[1..], measured, value);
      assert chunks == [chunks[0]] + chunks[1..];
    }
    Batch.MergedIsUnsplit(value, chunks);
  }

  /** What interrupts a poll is the first chunk that does not stand. */
  lemma {:induction false} FirstInterrupts(
    chunks: seq<seq<string>>, measured: set<string>, value: string -> string) returns (i: nat)
    requires BatchRead(chunks, measured, value).Interrupted?
    ensures i < |chunks| && ChunkDisposal(chunks[i], measured, value) != Stands
    ensures BatchRead(chunks, measured, value) == Interrupted(ChunkDisposal(chunks[i], measured, value))
    ensures forall j :: 0 <= j < i ==> ChunkDisposal(chunks[j], measured, value) == Stands
  {
    hide ChunkDisposal, Batch.Merged;
    i := 0;
    if ChunkDisposal(chunks[0], measured, value) == Stands {
      var k := FirstInterrupts(chunks[1..], measured, value);
      i := k + 1;
      forall j | 0 <= j < i ensures ChunkDisposal(chunks[j], measured, value) == Stands {
        if j > 0 { assert chunks[j] == chunks[1..][j - 1]; }
      }
    }
  }

  lemma {:induction false} ChunkHolding(chunks: seq<seq<string>>, name: string)
    requires name in Batch.Flatten(chunks)
    ensures exists c :: c in chunks && name in c
  {
    if name in chunks[0] {
    } else {
      ChunkHolding(chunks[1..], name);
      var c :| c in chunks[1..] && name in c;
      assert c in chunks;
    }
  }

  /** The values of a router whose session is gone: what it serves anyway, and blanks. */
  ghost predicate SessionGone(value: string -> string, served: set<string>) {
    forall k :: value(k) != "" <==> k in served
  }

  /** A polled key whose emptiness is a dead session's mark, and which the set in force leaves to be one. */
  predicate PollsSentinel(params: seq<string>, measured: set<string>) {
    exists s :: s in SENTINELS && s in params && s !in measured
  }

  /** A dead session is always noticed, however the poll is split, when the set in force holds
      every polled key the router serves without a session, and leaves a polled sentinel out. */
  lemma DeadSessionIsNoticed(params: seq<string>, chunks: seq<seq<string>>, measured: set<string>,
                             value: string -> string, served: set<string>)
    requires Batch.Flatten(chunks) == params && (forall c :: c in chunks ==> NoOutcomeKeys(c))
    requires PollsSentinel(params, measured) && SessionGone(value, served)
    requires forall k :: k in params && k in served ==> k in measured
    ensures BatchRead(chunks, measured, value).Interrupted?
  {
    var s :| s in SENTINELS && s in params && s !in measured;
    ChunkHolding(chunks, s);
    var c :| c in chunks && s in c;
    assert s in (set k | k in c) - measured && s in (set k | k in c) * SENTINELS;
    assert Classifiable(c, measured);
    assert s !in WithAliases(measured);
    if ShowsLife(c, measured, value) {
      var k :| k in c && value(k) != ""
          && (k !in WithAliases(measured) || forall o :: o in c ==> o in WithAliases(measured));
      InFlatten(chunks, c, k);
      assert false;
    }
    BatchReturnsExactly(chunks, measured, value);
  }

  /** One chunk on a dead session, with a name that needs one: it is noticed exactly where the chunk
      asks for a sentinel too, or for a key of the set.  One that asks for neither proves nothing
      either way. */
  lemma DeadChunkIsNoticedExactly(chunk: seq<string>, measured: set<string>, value: string -> string,
      served: set<string>)
    requires NoOutcomeKeys(chunk) && SessionGone(value, served)
    requires forall k :: k in chunk && k in served ==> k in measured
    requires exists k :: k in chunk && k !in WithAliases(measured)
    ensures ChunkDisposal(chunk, measured, value) != Stands
            <==> exists k :: k in chunk && (k in SENTINELS || k in measured)
  {
    ChunkStandsExactly(chunk, measured, value);
    var names := set k | k in chunk;
    assert measured <= WithAliases(measured);
    hide WithAliases, ChunkDisposal;
    var k :| k in chunk && k !in WithAliases(measured);
    assert k in names - measured;
    assert !ShowsLife(chunk, measured, value);
    assert names * SENTINELS != {} <==> exists o :: o in chunk && o in SENTINELS by {
      if o :| o in chunk && o in SENTINELS { assert o in names * SENTINELS; }
      if names * SENTINELS != {} { var o :| o in names * SENTINELS; assert o in chunk; }
    }
    assert names * measured != {} <==> exists o :: o in chunk && o in measured by {
      if o :| o in chunk && o in measured { assert o in names * measured; }
      if names * measured != {} { var o :| o in names * measured; assert o in chunk; }
    }
  }

  lemma {:induction false} InFlatten(chunks: seq<seq<string>>, c: seq<string>, k: string)
    requires c in chunks && k in c
    ensures k in Batch.Flatten(chunks)
  {
    if c != chunks[0] { InFlatten(chunks[1..], c, k); }
  }

  lemma {:induction false} ReturnedStands(
    chunks: seq<seq<string>>, measured: set<string>, value: string -> string, i: nat)
    requires BatchRead(chunks, measured, value).Returned? && i < |chunks|
    ensures ChunkDisposal(chunks[i], measured, value) == Stands
  {
    if i > 0 { ReturnedStands(chunks[1..], measured, value, i - 1); }
  }

  /** A live session with a value that needs it in every chunk judged is never renewed. */
  lemma LiveSessionIsKept(params: seq<string>, chunks: seq<seq<string>>, measured: set<string>, value: string -> string)
    requires Batch.Flatten(chunks) == params && (forall c :: c in chunks ==> NoOutcomeKeys(c))
    requires forall c :: c in chunks && Classifiable(c, measured) ==>
               exists k :: k in c && k !in WithAliases(measured) && value(k) != ""
    ensures BatchRead(chunks, measured, value) == Returned(Batch.Answer(value, params))
  {
    forall c | c in chunks ensures !Classifiable(c, measured) || ShowsLife(c, measured, value) {
      if Classifiable(c, measured) {
        var k :| k in c && k !in WithAliases(measured) && value(k) != "";
      }
    }
    BatchReturnsExactly(chunks, measured, value);
  }

  // ----- measuring the set in force -------------------------------------------------------

  /** The keys of the two polls that carried a value, read with the session gone. */
  function Measured(value: string -> string, core: seq<string>, extended: seq<string>): set<string> {
    set k | k in core + extended && value(k) != ""
  }

  predicate MeasurementUsable(measured: set<string>, core: seq<string>, extended: seq<string>) {
    && measured != {}
    && (exists k :: k in core && k !in measured)
    && (exists k :: k in extended && k !in measured)
    && !(CONTRACT_KEYS <= measured)
    && !(SENTINELS <= measured)
  }

  /** A measurement is usable exactly where something answered, either poll keeps a key that needs
      a session, and so does the pair of sentinels; that a contract key is left follows. */
  lemma UsableExactly(measured: set<string>, core: seq<string>, extended: seq<string>)
    ensures MeasurementUsable(measured, core, extended)
            <==> && (exists k :: k in measured) && (exists s :: s in SENTINELS && s !in measured)
                 && (exists k :: k in core && k !in measured) && (exists k :: k in extended && k !in measured)
  {
    assert SENTINELS <= CONTRACT_KEYS;
    if measured != {} { var k :| k in measured; }
  }

  /** A usable measurement of a device makes a dead session on that device noticeable. */
  lemma UsableMeasurementDetects(core: seq<string>, extended: seq<string>, chunks: seq<seq<string>>,
                                 value: string -> string, served: set<string>)
    requires Batch.Flatten(chunks) == core && (forall c :: c in chunks ==> NoOutcomeKeys(c))
    requires forall s :: s in SENTINELS ==> s in core
    requires SessionGone(value, served)
    requires MeasurementUsable(Measured(value, core, extended), core, extended)
    ensures BatchRead(chunks, Measured(value, core, extended), value).Interrupted?
  {
    var measured := Measured(value, core, extended);
    forall k | k in core && k in served ensures k in measured {
      assert k in core + extended && value(k) != "";
    }
    var s :| s in SENTINELS && s !in measured;
    assert s in core;
    DeadSessionIsNoticed(core, chunks, measured, value, served);
  }

  /** Why the set must be the device's own: against the shipped set, a device that serves
      `network_type` without a session hides its dead session in the first chunk. */
  lemma ShippedSetCanMiss() returns (chunks: seq<seq<string>>, value: string -> string)
    ensures SessionGone(value, {"network_type"})
    ensures chunks == [["network_type", "wan_connect_status", "ppp_status"]]
    ensures BatchRead(chunks, UNAUTHENTICATED_KEYS, value).Returned?
  {
    value := (k: string) => if k == "network_type" then "ENDC" else "";
    chunks := [["network_type", "wan_connect_status", "ppp_status"]];
    ShowsNetworkType(chunks[0], value);
    assert forall c :: c in chunks ==> c == chunks[0];
    hide ShowsLife, Classifiable, WithAliases;
    BatchReturnsExactly(chunks, UNAUTHENTICATED_KEYS, value);
  }

  lemma ShowsNetworkType(c: seq<string>, value: string -> string)
    requires c == ["network_type", "wan_connect_status", "ppp_status"] && value("network_type") != ""
    ensures ShowsLife(c, UNAUTHENTICATED_KEYS, value) && NoOutcomeKeys(c)
  {
    assert c[0] == "network_type" && c[0] in c;
    assert |"network_type"| == 12 && "network_type" !in UNAUTHENTICATED_KEYS;
    assert "network_type" !in WithAliases(UNAUTHENTICATED_KEYS);
    assert |"result"| == |"status"| == 6 && |c[0]| == 12 && |c[1]| == 18 && |c[2]| == 10;
  }
}
