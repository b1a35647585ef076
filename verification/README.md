# ZTE router integration: models and proofs

This project models the parts of the integration that decide things over time, and proves
what they keep over every run.

* **Start instants from drifting counters** (`Uptime`, `UptimeReadings`, `UptimeGap`,
  `UptimeDecision`, `UptimeStability`). A router counter that ticks slow or fast is turned into a frozen start
  instant. `Uptime` holds the latch: the value `Latch`, a function for each step, and the
  class `UptimeLatch`, whose methods change the fields in place, each proved to take the
  value where its function says. The others prove what follows for arbitrary readings, for the
  first poll after a restart, for any one poll of any latch, and for a counter of constant rate.
* **Total Connected Time** (`TotalTime`): rises that nothing explains are rejected.
* **The session protocol** (`Session`, `Requests`, `SessionFlag`, `Client`, `Poll`, `Batch`).
  The router never reports a dead session; it answers blanks. `Session` says which dead
  sessions a batch poll notices. `Client.Api` is the client over an arbitrary router: requests,
  replays, logins, the check before a write, and writes. `log` holds every exchange, and the
  contracts are stated in counts over it. `Poll.Poller` is the coordinator's poll above it.
* **Locks** (`Locks`, `LockPaths`): any number of polls, writes, sends, discovery passes and
  logins, interleaved and cut short in any way, with what each exchange belongs to.
* **Discovery** (`Discovery`): every probed name is sorted into answered, declined, unasked or
  silent, with requests and logins that are the client's of `Client`. What a pass has on record
  is shown to be, step by step, what the client's log has of it.
* **The expected-outage window** (`Outage`, `OutageRuns`): a two-phase timer machine, with any
  number of checks at their awaits. The class `OutageCoordinator` has a method for each stretch
  between two awaits, proved against a function; `OutageRuns` is about those.
* **SMS** (`Sms`, `SmsEvents`, `KeepLast`, `Sorting`): events fired exactly once, and deletion
  that keeps the newest messages.

Where the code and its own documentation disagree, the code is followed:

* A session replaced after thirty seconds or more is always recorded as a lifetime, whatever
  ended it (custom_components/zte_router_5g/api.py:2055-2074, `Client.LifetimesAfter`).
* The check before a write is said never to raise. It raises an error that is none of the
  client's own exactly where its own login, or its read of the witnesses, meets JSON that is no
  object, or a login form raises something else than a timeout or a transport error
  (custom_components/zte_router_5g/api.py:2263-2353, 3119-3174; `Client.Api.EnsureSession`, and
  `Client.CheckCanRaise` for an input).
* The check of an anchor against its counter is written as two-sided. Only a counter that is
  behind can move the anchor (`UptimeReadings.PlausibilityMovesExactlyWhenBehind`).
* A closing poll that fails is said to count nothing. One that fails after its payload was
  taken, in the hourly provisioning read, still counts as a success and closes the window; and
  a poll that was waiting when a window opened counts its failure against the router
  (custom_components/zte_router_5g/coordinator.py:980-1019, 1072-1088;
  `OutageRuns.FailedPollsCount`, `OutageRuns.PollInFlightCounts`).
* What closed a window is said to be what happened. A window that opens while a check is out,
  at its probe or at its closing poll, can be closed by that check, and its record then says
  "answer" without a drop or a return; between checks none can
  (custom_components/zte_router_5g/coordinator.py:674-719;
  `OutageRuns.OpensExactlyBetweenChecks`).
* Probes are said to run without authentication, so that they cannot log in again
  (custom_components/zte_router_5g/api.py:3541-3548). They run with it, and a probe that finds
  no session, or is answered with a page or with text that is not JSON, logs in like any other
  read (custom_components/zte_router_5g/api.py:3810-3816). So `Discovery.Pass.ReloginOnce`
  bounds the sessions made anew, and `Discovery.Pass.ProbeNames` all logins, by the requests.
* The rounds of single probes are said to end when a round resolves nothing. They end when
  nothing is open, after four rounds, or at the deadline
  (custom_components/zte_router_5g/api.py:3739-3784).
* At the deadline a pass drops the names that had failed in the current round, and in the
  first phase also the names queued or declined so far. `Discovery.Pass.ProbeNames` says exactly
  which; `Discovery.TimeLimitLosesAName` gives a pass that loses one.
* The login counters are read once, before up to two forms (`Client.Api.Login`: at most two
  forms, and none where the router's second answer in this login has counters that forbid it).

## Model

| member | source | states |
|---|---|---|
| Uptime.Clamped | custom_components/zte_router_5g/coordinator.py:1264-1278 | a rate never leaves the band of a fifth either way |
| Uptime.DriftRate | custom_components/zte_router_5g/coordinator.py:1264-1278 | a rate is trusted only after an hour of samples, and is at most a fifth either way |
| Uptime.UptimeLatch.Apply | custom_components/zte_router_5g/coordinator.py:1343-1393 | one poll, with every step it takes, brings the fields in place to where the specification of a poll says; what that does is said by the rows of UptimeDecision |
| UptimeReadings.RescalingKeepsTheRatio | custom_components/zte_router_5g/coordinator.py:1280-1321 | rescaling caps the time summed and leaves the learned ratio as it was |
| UptimeReadings.RunKeepsAccumulators | custom_components/zte_router_5g/coordinator.py:1280-1321 | over any readings, store writes and restarts the sums stay within the cap and the unclamped rate between the smallest and largest sample |
| UptimeReadings.FreshRunStaysBalanced | custom_components/zte_router_5g/coordinator.py:1264-1321 | the same from a fresh latch, with no premise on the run |
| UptimeReadings.DerivedWithinBounds | custom_components/zte_router_5g/coordinator.py:1323-1341 | a trusted rate puts the start between the reading over 0.8 and over 1.2 before now |
| UptimeReadings.PlausibilityMovesExactlyWhenBehind | custom_components/zte_router_5g/coordinator.py:1612-1661 | the backstop acts if and only if the counter is behind the anchor by more than the tolerance |
| UptimeReadings.AnchorStaysOrIsDerived | custom_components/zte_router_5g/coordinator.py:1343-1432 | any poll leaves the anchor or puts it at the cut instant derived from that very reading, even when two steps act in one poll |
| UptimeReadings.AnchorIsPersisted | custom_components/zte_router_5g/coordinator.py:1691-1726 | the anchor in the entry never differs from the one in memory |
| UptimeReadings.MovesEarlierExactly | custom_components/zte_router_5g/coordinator.py:1612-1661 | in a reconciled session, without a fall beyond the margin, a poll moves the anchor earlier if and only if the check acts, the anchor stands within a second, and the derived instant falls in that same second |
| UptimeReadings.NoDropNeverMovesEarlier | custom_components/zte_router_5g/coordinator.py:1395-1432 | so a whole-second anchor never moves earlier without such a fall |
| UptimeReadings.FractionalAnchorCanMoveEarlier | custom_components/zte_router_5g/coordinator.py:1612-1661 | an input on which a fractional anchor does |
| UptimeDecision.PollDecision | custom_components/zte_router_5g/coordinator.py:1343-1661 | for any latch, pausing or not, one accepted reading moves the anchor if and only if it shows a reset, by its fall, by what is stored or by the anchor, or is behind the anchor at a trusted rate; always to the second in which the counter was at zero; and is stored if and only if the anchor moved or twenty minutes have passed |
| UptimeDecision.SampleExactly | custom_components/zte_router_5g/coordinator.py:1280-1321 | a sample of the rate is an interval of a minute or more over which a counter that never pauses rose, and adds its time and its advance |
| UptimeDecision.ResetInSessionIsDated | custom_components/zte_router_5g/coordinator.py:1395-1432 | a fall beyond the margin within a session is always a reset, dated at the rate learned before it: to the second of the reset, or within the second lost to whole-second reading; and that reading is what is stored |
| UptimeDecision.RejectedChangesNothing | custom_components/zte_router_5g/coordinator.py:1343-1380 | a reading changes nothing if it is missing, negative, beyond ten years or read before the clock was set, and only then is it not accepted |
| UptimeDecision.RestartRestores | custom_components/zte_router_5g/coordinator.py:1825-1930 | a write and then a restart bring back all but what belongs to the session |
| UptimeDecision.OrphanIsDropped | custom_components/zte_router_5g/coordinator.py:1880-1892 | a stored counter without an anchor is dropped at a restart, and the first reading makes an anchor |
| UptimeStability.StepTracks | custom_components/zte_router_5g/coordinator.py:1343-1432 | every event of a constant-rate run, restarts included, keeps the invariant that ties anchor, sums and stored pair to the line |
| UptimeStability.MovesBounded | custom_components/zte_router_5g/coordinator.py:1264-1661 | from any state on the line, exactly how often the anchor still moves where the counter is not fast, and at most once where it is |
| UptimeStability.AnchorStability | custom_components/zte_router_5g/coordinator.py:1264-1661 | a counter losing up to a fifth, read in whole seconds on any schedule, restarted at any time: the anchor, once latched, moves exactly at the first readings after a restart that fall short before a rate is trusted; a fast counter has none of those and moves it at most once |
| UptimeStability.HarmlessMeansNoShortfall | custom_components/zte_router_5g/coordinator.py:1518-1583 | no reading falls short where each restart is at a trusted rate or before a gap over which the loss stays within the margin |
| UptimeStability.HarmlessRestartsKeepTheAnchor | custom_components/zte_router_5g/coordinator.py:1264-1661 | over such restarts the anchor never moves once latched, or at most once for a fast counter |
| UptimeStability.UnrestartedAnchorStays | custom_components/zte_router_5g/coordinator.py:1343-1432 | without a restart the anchor never moves once latched, or at most once for a fast counter, whatever is read and over any gaps |
| UptimeStability.FastCounterMovesOnce | custom_components/zte_router_5g/coordinator.py:1612-1661 | two readings on which the one move happens |
| UptimeStability.UntrustedRestartMovesTheAnchor | custom_components/zte_router_5g/coordinator.py:1518-1583 | a restart before the rate is trusted, over a day, after which the anchor of a counter that never reset moves |
| UptimeGap.GapDecision | custom_components/zte_router_5g/coordinator.py:1434-1661 | at a trusted rate or not, the first poll after a gap moves the anchor if and only if one of two tests fails, and always to the same instant |
| UptimeGap.UntrustedGapDecision | custom_components/zte_router_5g/coordinator.py:1518-1583 | before a rate is trusted, the anchor is kept if and only if the counter gained the whole gap less the margin |
| UptimeGap.KeptTickingDecision | custom_components/zte_router_5g/coordinator.py:1518-1583 | a counter that kept its rate over a gap moves its anchor if and only if the backstop acts |
| UptimeGap.KeptTickingRetains | custom_components/zte_router_5g/coordinator.py:1518-1583 | such a counter keeps an anchor that was credible for the stored pair, over a gap of any length |
| UptimeGap.PolledAnchorIsCredible | custom_components/zte_router_5g/coordinator.py:1612-1661 | after any poll past the first half minute the anchor satisfies what the previous row needs |
| UptimeGap.PollSavesCredibly | custom_components/zte_router_5g/coordinator.py:1728-1760 | every poll, whether or not it stores its own pair, keeps the stored pair credible for the anchor |
| UptimeGap.RestartOverGap | custom_components/zte_router_5g/coordinator.py:1434-1583 | stop at any point of a run, over any gap: the next process keeps the anchor of a counter that kept ticking |
| UptimeGap.ResetIsDated | custom_components/zte_router_5g/coordinator.py:1518-1583 | a reset that cost more than the margin is dated to its second, or within the second lost to whole-second reading |
| UptimeGap.BothCasesHappen | custom_components/zte_router_5g/coordinator.py:1518-1583 | a day's gap over which one counter ran on and one was reset: the anchor is kept, and moved to the reset |
| TotalTime.TotalTimeCheck.CheckedTotalTime | custom_components/zte_router_5g/coordinator.py:1762-1792 | one reading is shown or rejected, and a rejected one changes nothing |
| TotalTime.BelievedExactly | custom_components/zte_router_5g/coordinator.py:1762-1792 | a reading is believed if and only if it is usable and at most two minutes, and 1.05 times the time passed, above the one believed before; so a first reading and a fall always are |
| TotalTime.RiseIsBounded | custom_components/zte_router_5g/coordinator.py:1762-1792 | along a stretch without a fall the value shown rises by at most 1.05 times the time passed and 120 s for each reading believed |
| TotalTime.ConstantIsBelievedInTime | custom_components/zte_router_5g/coordinator.py:1762-1792 | a constant value is rejected until exactly the instant its rise is covered, and then believed |
| Session.FreshSessionIsNotBlamed | custom_components/zte_router_5g/api.py:2510-2542 | an answer on a session just made is an authentication error exactly when the router says so in words |
| Session.RejectedExactly | custom_components/zte_router_5g/api.py:926-1011 | what is done about any answer, from its payload: a router still starting up is unreachable whatever the request; else a session is renewed if and only if the request may be put again and the answer looks dead, by what came back of what was asked, or says so |
| Session.AbsentAreCounted | custom_components/zte_router_5g/api.py:995-1010 | the keys counted are the positions in the request of the names that need a session, and of those of them that did not come back |
| Session.SpellingsProveNothing | custom_components/zte_router_5g/api.py:659-680 | the key set is widened by the other spellings of what it holds and by nothing else, and a read of such spellings is never taken for a dead session |
| Session.WordsAreUnderTwoKeys | custom_components/zte_router_5g/api.py:2500-2508 | the words of a dead session are looked for under two keys, either of which is enough |
| Session.ChunkStandsExactly | custom_components/zte_router_5g/api.py:926-1053 | against a router that answers key by key one chunk stands if and only if it is not judged or shows life; one that shows nothing on either side of the key set is an unreachable router, and only what is left is a renewal |
| Session.BatchReturnsExactly | custom_components/zte_router_5g/api.py:4134-4182 | the batch read of a router that answers key by key returns exactly when every judged chunk shows life, and then what the unsplit list would give |
| Session.FirstInterrupts | custom_components/zte_router_5g/api.py:4154-4182 | what interrupts a batch read is its first chunk that does not stand |
| Session.DeadSessionIsNoticed | custom_components/zte_router_5g/api.py:926-1053 | with a key set that holds what the router serves without a session, and leaves one polled sentinel out, that read never returns on a dead session, in any splitting |
| Session.DeadChunkIsNoticedExactly | custom_components/zte_router_5g/api.py:1024-1053 | one chunk with a name that needs a session shows a dead one if and only if it also asks for a sentinel or a key of the set |
| Session.LiveSessionIsKept | custom_components/zte_router_5g/api.py:926-1053 | a live session with one value in every judged chunk is never renewed |
| Session.ReturnedStands | custom_components/zte_router_5g/api.py:4154-4182 | a batch read that returns judged the answer to each of its chunks as standing |
| Session.UsableMeasurementDetects | custom_components/zte_router_5g/api.py:3359-3411 | a measurement that passes the rules makes every dead session of that device noticeable |
| Session.UsableExactly | custom_components/zte_router_5g/api.py:3359-3411 | a measurement is usable if and only if something answered, and either poll and the sentinels keep a key that needs a session |
| Session.ShippedSetCanMiss | custom_components/zte_router_5g/api.py:3413-3415 | a device on which the shipped key set hides a dead session |
| Requests.OutcomeIsLastAnswer | custom_components/zte_router_5g/api.py:2769-2824 | what a request returns is its last answer |
| Requests.DisposedExactly | custom_components/zte_router_5g/api.py:2769-2824 | what any answer to any request leads to, from the two alone; and a request put again is never put a third time, and fails as unauthorised on the word alone |
| Requests.RenewsOnlyReads | custom_components/zte_router_5g/api.py:2834-2854 | only a read with a session is ever put again |
| Requests.ReplayIsNotBlamedForItsShape | custom_components/zte_router_5g/api.py:2510-2542 | a replayed read fails as unauthorised only on the router's own word |
| Requests.EstablishedExactly | custom_components/zte_router_5g/api.py:3139-3170 | a form made a session if and only if it was answered with a cookie of any name or a word of success in any case; a rejection is neither |
| Requests.RefusalExactly | custom_components/zte_router_5g/api.py:1849-1868 | an answer refuses a write if and only if it has a result that is no word of success in any case |
| Requests.NumberReadsNumerals | custom_components/zte_router_5g/api.py:805-810 | a login counter written as a number, signed or not, with spaces around it, is read as that number |
| Requests.NumberReadsNothingElse | custom_components/zte_router_5g/api.py:805-810 | and nothing else is read as one |
| Requests.FirstSpellingExactly | custom_components/zte_router_5g/api.py:753-766 | a reading under several spellings is the first that has a value |
| SessionFlag.WithheldExactly | custom_components/zte_router_5g/api.py:1808-1847 | the send is withheld if and only if the reading is known here, it denied the session, and the login that followed failed or was followed by a second denial |
| SessionFlag.VerdictExactly | custom_components/zte_router_5g/api.py:2197-2261 | a value other than ok is a denial only of a device believed to answer on this firmware, proves nothing where it is believed not to, and is in doubt otherwise |
| SessionFlag.AskingAdopts | custom_components/zte_router_5g/api.py:1999-2053 | asking loses no belief, and one formed before the firmware was known becomes one about that firmware |
| SessionFlag.CheckedExactly | custom_components/zte_router_5g/api.py:2263-2353 | what a check notes and comes to believe, from its two reads and its login |
| SessionFlag.FlaglessDeviceCostsOneLogin | custom_components/zte_router_5g/api.py:1999-2353 | on a device that never answers ok, at most one login by the check between changes of the known firmware, and nothing ever withheld |
| SessionFlag.OnceConfirmedIsKnown | custom_components/zte_router_5g/api.py:1999-2053 | a device that answered ok once is believed to, through any checks, until another firmware is known |
| SessionFlag.AnotherFirmwareForgets | custom_components/zte_router_5g/api.py:1999-2053 | a belief about one firmware says nothing of another |
| SessionFlag.TheLoginHappens | custom_components/zte_router_5g/api.py:2298-2353 | the one login does happen on a device that answers blank |
| Client.LearnedAgeLimit | custom_components/zte_router_5g/api.py:2076-2092 | learned from three samples on, at most 0.8 of every lifetime seen, never under thirty seconds |
| Client.LifetimesAreNewest | custom_components/zte_router_5g/api.py:2055-2074 | a session of thirty seconds or more is kept last, after the newest nine before it |
| Client.Api.Exchange | custom_components/zte_router_5g/api.py:2673-2715 | one request on the wire; a lost one ends the session |
| Client.Api.NoteSessionReplaced | custom_components/zte_router_5g/api.py:2055-2074 | every session of thirty seconds or more is recorded, the last ten kept |
| Client.Api.SessionIsPastItsLearnedAge | custom_components/zte_router_5g/api.py:2094-2111 | older than learned, except on every tenth check that counts, the count being one more each time |
| Client.Api.PreemptStaleSession | custom_components/zte_router_5g/api.py:2624-2655 | exactly when a session is dropped ahead of time, and when that check counts; never one made this instant |
| Client.Api.AttemptLogin | custom_components/zte_router_5g/api.py:3080-3188 | one form, and what it counts as |
| Client.Api.OpenRead | custom_components/zte_router_5g/api.py:2900-2932 | a read of the login's own goes through the same request path, makes no login and no form, and returns what its one answer says; no body if and only if that is no object |
| Client.Api.GetVersion | custom_components/zte_router_5g/api.py:2900-2924 | version and login counters are those of the router's one answer, and left as they were where it has none; only an answer that is no object is an error |
| Client.Api.ReadGuard | custom_components/zte_router_5g/api.py:2943-3000 | the challenge first, and the counters of the router's second answer; with nothing but open reads |
| Client.Api.PrepareLogin | custom_components/zte_router_5g/api.py:2943-3016 | what keeps a login from its form, from the router's answers: an obstacle in its first two reads, counters that forbid a form, no password, and nothing else; with exactly the reads it needs |
| Client.Api.SubmitForms | custom_components/zte_router_5g/api.py:3016-3056 | the outcome is that of the last form; a second follows if and only if the first got no verdict |
| Client.Api.MakeSession | custom_components/zte_router_5g/api.py:2957-3078 | from the cleared session on: without an obstacle in its reads a form is put, and the last one's answer decides; the session fields are set together |
| Client.Api.Login | custom_components/zte_router_5g/api.py:2934-3078 | a login, from the router's answers: without an obstacle a form is put, a second if and only if the first got no verdict, and the last one decides: a session, a rejection, an error that is not the client's own, or a connection error; refused in an outage with the session untouched |
| Client.Api.Prepare | custom_components/zte_router_5g/api.py:2826-2832 | at most one login before a request, none on a session just made or one that stands; an error is that of the login that failed |
| Client.Api.Attempt | custom_components/zte_router_5g/api.py:2826-2879 | the first try of a request: one answer, from the router, or the error of the login before it; no login on a session that stands |
| Client.Api.Perform | custom_components/zte_router_5g/api.py:2826-2879 | for every router: a read goes out at most twice with at most two logins, a write at most once; without a session, or with one idle too long, only after a login that made one; on a session that stands no login unless the first answer asks for it; the outcome follows from the answers, which are those on the log; nothing else is sent |
| Client.Api.ReplayAfterLogin | custom_components/zte_router_5g/api.py:2544-2593 | one login and the same request once more, which cannot renew again |
| Client.Api.SessionRead | custom_components/zte_router_5g/api.py:2595-2622 | a read on the session keeps all of that, and writes nothing; where no answer decides it, its error is that of the login that failed last |
| Client.Api.ReadSessionFlag | custom_components/zte_router_5g/api.py:2197-2261 | the flag is asked for; verdict and beliefs are those of the specification on the value the router gave; an unusable answer decides nothing |
| Client.Api.NoteWitnessVerdict | custom_components/zte_router_5g/api.py:2355-2393 | the fallback asks for the witnesses, notes the verdict on their answer and blocks nothing; it raises if and only if it met no object |
| Client.Api.EnsureSession | custom_components/zte_router_5g/api.py:2263-2353 | the flag is read, after a doubt a login follows, and after a session made a second read; beliefs and last check are those of the specification on the two values; at most three logins; it raises if and only if its own login or the read of the witnesses met no object, or a form of that login raised |
| Client.Api.LogInAndAsk | custom_components/zte_router_5g/api.py:2298-2353 | the part after a doubt: a login, and where it succeeds a second read |
| Client.CheckCanRaise | custom_components/zte_router_5g/api.py:2263-2353 | an input on which the check raises: a blank flag on a session just made, and a list in place of the login challenge |
| Client.Api.GetCrVersion | custom_components/zte_router_5g/api.py:5247-5287 | the second half of the operand is kept for the firmware it was read on, or read once; only a read that failed is an error |
| Client.Api.GetAd | custom_components/zte_router_5g/api.py:5076-5140 | a token after a check that did not raise if and only if the version and RD were given and the second half was read; the first that fails decides the error |
| Client.Api.AdSuffix | custom_components/zte_router_5g/api.py:4949-4988 | refused in an outage before anything is sent; otherwise a login of its own for every command but the logout, then the check, and for a command that needs one the token; the error is that of the step that failed |
| Client.Api.NoteWriteRefusal | custom_components/zte_router_5g/api.py:1717-1806 | after a refusal the flag is asked for, and only a direct denial is reported as the session; nothing is written again |
| Client.Api.RequireWriteSuccess | custom_components/zte_router_5g/api.py:1700-1715 | an error if and only if the answer is an explicit refusal, and then the one the question after it gives |
| Client.Api.Post | custom_components/zte_router_5g/api.py:2834-2879 | a write is put as any request, once at most, and not only in an outage or where its login failed; an answer that is no refusal is its outcome, and a refusal is reported by the question after it |
| Client.Api.WriteCommand | custom_components/zte_router_5g/api.py:5463-5475 | one write from its own login on: the error of building it, or what came of putting it |
| Client.Api.RetryOnceOnRefusal | custom_components/zte_router_5g/api.py:850-884 | a second write follows if and only if the first was refused, and then its outcome is the one returned; in an outage nothing |
| Client.Api.Logout | custom_components/zte_router_5g/api.py:4048-4089 | the session is dropped whatever happens; a session that was held is ended by a write built like any other but without a login of its own, put once |
| Client.Api.SendCounters | custom_components/zte_router_5g/api.py:4768-4797 | the counters are those in the router's answer to the capacity read, and nothing is believed of the session for it |
| Client.Api.RequireConfirmedSession | custom_components/zte_router_5g/api.py:1808-1847 | withheld exactly in the state the specification names |
| Client.Api.SendSms | custom_components/zte_router_5g/api.py:4708-4837 | at most one POST whatever the router answers; withheld if and only if the check left the one state named, and never on a device that never answers ok; else put, and what is accepted is a success unless the router's counts before and after show it only stored |
| Client.Api.DeliverSms | custom_components/zte_router_5g/api.py:4780-4837 | the write once; accepted, the counts are read again, and it is a success unless only the draft count rose |
| Client.StoredOnlyReads | custom_components/zte_router_5g/api.py:4814-4837 | of counts given as numbers, stored only means that the draft count rose and the sent count did not |
| Client.StoredOnlyNeedsCounts | custom_components/zte_router_5g/api.py:4814-4829 | and nothing is said where any of the four is missing or no number |
| Poll.EndpointHoldsThreeTimes | custom_components/zte_router_5g/coordinator.py:800-866 | through failures in a row the last good payload is served three times, then the fallback, and availability ends with it |
| Poll.Poller.BatchGet | custom_components/zte_router_5g/api.py:4134-4182 | what is returned is the union of one answer to each chunk, an answer its call can return, as the log has it, and an error is that of the first chunk whose request failed; without a login in between each chunk was put once; with a sound key set nothing is returned from a router whose session is gone without a login; and on a session that stands a router that shows life in every chunk judged is read without one |
| Poll.Poller.ReadChunk | custom_components/zte_router_5g/api.py:4156-4179 | one chunk, put as any request, and the answer on the log it was returned from; on a session that stands no login unless its first answer asks for one |
| Poll.Poller.ReadChunks | custom_components/zte_router_5g/api.py:4154-4182 | the loop: every chunk is required, the answers on the log are merged in order, and a live session is kept |
| Poll.Poller.AliveStands | custom_components/zte_router_5g/api.py:926-1053 | the first answer to any chunk of a batch read that finds the session alive ends its request with a body |
| Poll.Poller.LiveIsAlive | custom_components/zte_router_5g/api.py:926-1053 | a router with a value that needs the session in every chunk judged is one that read finds alive, however the names are split |
| Poll.Poller.ReturnsBatchRead | custom_components/zte_router_5g/api.py:4134-4182 | against a router that answers key by key the loop returns exactly the batch read of its values |
| Poll.Poller.DeadReturnsNothing | custom_components/zte_router_5g/api.py:926-1053 | so on a dead session no such loop can have returned |
| Poll.UnionFront | custom_components/zte_router_5g/api.py:4178-4179 | merging in order is merging the first answer under the rest |
| Poll.KeyWiseIsBatchRead | custom_components/zte_router_5g/api.py:4134-4182 | answers kept as first given, each key on its own, make up the batch read of those values |
| Poll.Poller.SmsRead | custom_components/zte_router_5g/api.py:4303-4319 | an SMS read is one request, an error where its answer lacks the key it must carry; it writes nothing and its credentials error is the router's word |
| Poll.Poller.FetchOptional | custom_components/zte_router_5g/coordinator.py:809-866 | an authentication error passes through and counts nothing; everything else is absorbed under this endpoint's own count |
| Poll.Poller.FetchAll | custom_components/zte_router_5g/coordinator.py:868-916 | what a round delivers is the union of the router's mandatory answers over what the extended endpoint serves; an error of the mandatory read, or the first authentication error of the others, is the round's; each endpoint keeps its own count |
| Poll.Poller.FetchMessages | custom_components/zte_router_5g/coordinator.py:868-916 | the two SMS reads, of which only an authentication error is reported |
| Poll.Poller.FetchAfresh | custom_components/zte_router_5g/coordinator.py:980-993 | a round, and after an authentication error one login and, where it succeeds, one round more |
| Poll.Poller.Fetch | custom_components/zte_router_5g/coordinator.py:980-1019 | what is delivered is what the last round says of the connection; an authentication error is followed by one login, and where that succeeds by one more round, whose outcome counts; blame only with a rejection in this poll or no password |
| Poll.Poller.UpdateData | custom_components/zte_router_5g/coordinator.py:945-1106 | what a poll makes of the router is what such a fetch over its stretch of the log came to; the user is asked to sign in if and only if that ended in a rejected password and nothing was left to hold, and then this poll saw a rejection or there was no password; a skipped poll asks nothing; no poll writes |
| Batch.SplitByUrlBudget | custom_components/zte_router_5g/api.py:4091-4132 | the loop returns the greedy splitting |
| Batch.GreedyKeepsItsPromises | custom_components/zte_router_5g/api.py:4091-4132 | the chunks are the names in order, each of two or more within the limit, and no splitting under that rule has fewer |
| Batch.GreedyIsShortest | custom_components/zte_router_5g/api.py:4091-4132 | no splitting under the same rule has fewer chunks |
| Batch.MergedIsUnsplit | custom_components/zte_router_5g/api.py:4154-4182 | against a router that answers key by key the merged result is the unsplit answer |
| Locks.RunKeepsSound | custom_components/zte_router_5g/api.py:2826-2941 | any interleaving keeps every lock exclusive and every task ordered |
| Locks.WaitsAreOrdered | custom_components/zte_router_5g/api.py:2934-2941 | a task waits only for a lock above those it holds, never for its own |
| Locks.SomeTaskCanGoOn | custom_components/zte_router_5g/api.py:2826-2879 | while a task is unfinished some task can step |
| Locks.RunKeepsGuarded | custom_components/zte_router_5g/api.py:2856-2879 | every exchange stays under the locks of what it belongs to, or behind the bounded wait for the write lock |
| Locks.OverlapOnlyAfterTimeout | custom_components/zte_router_5g/api.py:2856-2879 | an exchange beside a task inside one of its locks is that of a write whose wait ran out |
| LockPaths.KnownTasksAreFine | custom_components/zte_router_5g/coordinator.py:942-943 | every path of the integration, and every task made of such paths in a row, by choice or repeated, takes its locks in order and puts every exchange under its own: of a login, of a poll or a pass, of a batch, of a write |
| LockPaths.LockProtocol | custom_components/zte_router_5g/api.py:2826-2941 | from any number of such tasks, over any run: waits are for higher locks, someone can go on, logins never mix, polls and passes take turns, and nothing goes between the reads of a batch but a write whose wait ran out |
| Discovery.SilenceIsAnAnswer | custom_components/zte_router_5g/api.py:3788-3840 | silence on record is exactly: a request that came back whole, with a live canary where there are any, and gave the name no value |
| Discovery.ValueIsAnAnswer | custom_components/zte_router_5g/api.py:3788-3870 | and a value is exactly that of such a request, where the name is one worth asking for |
| Discovery.DeclineIsARefusal | custom_components/zte_router_5g/api.py:3824-3829 | declined is a refusal that holds none of the names asked for |
| Discovery.LostIsSilentCanaries | custom_components/zte_router_5g/api.py:3830-3833 | a session is lost if and only if every canary is silent in an object that does not refuse the whole |
| Discovery.CanariesComeAfter | custom_components/zte_router_5g/api.py:3804-3805 | the canaries are asked for after the names, none of them twice |
| Discovery.Pass.SilenceIsOnTheLog | custom_components/zte_router_5g/api.py:3788-3840 | a name silent on record was in a request on the log, which the router answered whole, with a live canary where there are any, and with no value for it |
| Discovery.Pass.ValueIsOnTheLog | custom_components/zte_router_5g/api.py:3788-3870 | a value on record was the router's, under that name, in an exchange on the log |
| Discovery.Pass.DeclineIsOnTheLog | custom_components/zte_router_5g/api.py:3788-3829 | a name declined on record was declined alone in an exchange on the log |
| Discovery.Pass.ObjectWasSent | custom_components/zte_router_5g/api.py:3804-3821 | every object on record was the answer on the log to a request for that chunk and the canaries |
| Discovery.Pass.AccountSo | custom_components/zte_router_5g/api.py:3587-3870 | over any stretch of a pass the logins are within two for each request and seven for each session made anew |
| Discovery.Pass.ProbeChunk | custom_components/zte_router_5g/api.py:3788-3840 | one request of the client's for the chunk and the canaries, not sent only in an outage or where its login made no session, is judged by its answers on the log as failed, declined, sessionless or answered; an answer holds only names asked for, and a failure with no names of its own is the one error that escapes |
| Discovery.Pass.ReloginOnce | custom_components/zte_router_5g/api.py:3541-3585 | within the budget of three a logout, where a session is held, and then one login, made exactly where that made a session, and then its proof; past it nothing; an error exactly when the proof of the new session is lost |
| Discovery.Pass.LogOutAndIn | custom_components/zte_router_5g/api.py:3561-3567 | a session that is held is logged out on the log, and one login follows |
| Discovery.Pass.TakeChunk | custom_components/zte_router_5g/api.py:3631-3676 | every name of a chunk is answered, silent, declined or still open, never two of these; one session is made anew if and only if the chunk found it lost, by its canaries or on the eighth blank chunk without any, and the budget is not spent |
| Discovery.Pass.SeeToSession | custom_components/zte_router_5g/api.py:3645-3680 | after a chunk the session is asked about exactly on the eighth blank one without canaries, and made anew exactly where it was lost and the budget allows |
| Discovery.Pass.PlaceChunk | custom_components/zte_router_5g/api.py:3630-3682 | one chunk is put, and its names go where its answer says: a lone name declined is declined, what was answered is found, and all else is asked again |
| Discovery.Pass.ProbeChunks | custom_components/zte_router_5g/api.py:3617-3676 | when time runs out the rest are exactly the chunks not reached, and the dropped exactly the names of the chunks left unsettled |
| Discovery.Pass.ReprobeRound | custom_components/zte_router_5g/api.py:3744-3773 | each name is asked once alone and settled, or stays open; when time runs out the names not reached are returned and those whose request failed in this round are exactly the ones left out |
| Discovery.Pass.ReprobeOne | custom_components/zte_router_5g/api.py:3756-3770 | one name asked alone is answered, silent or declined, or stays open |
| Discovery.Pass.ReprobeSingly | custom_components/zte_router_5g/api.py:3711-3786 | at most four single requests a name; what stays open with time to spare was asked in all four rounds; at the deadline what is dropped was asked in the round it cut short and failed, and what is unasked was not reached in it |
| Discovery.Pass.ProbeNames | custom_components/zte_router_5g/api.py:3587-3692 | answered, declined and unasked never overlap; every value was given, every declined name declined alone, and every other name dropped or asked for in vain, each in an exchange on the log; the dropped are exactly the names of the unsettled requests of the chunks, from the first on, or of the round the deadline cut short; at most three sessions made anew, and besides them two logins a request |
| Discovery.TimeLimitLosesAName | custom_components/zte_router_5g/api.py:3624-3628 | a pass of two names in which the time limit loses one that was never properly asked |
| Outage.OutageCoordinator.UpdateData | custom_components/zte_router_5g/coordinator.py:945-1106 | one poll in place with nothing in between: skipped, served, held, or failed in one of three ways; an empty result leaves no values |
| OutageRuns.AsksExactly | custom_components/zte_router_5g/coordinator.py:945-979 | a poll asks the router if and only if there is nothing to show yet, a window is closing on it, or no window is open short of its cap and polling is not paused, or not for this poll |
| OutageRuns.TakenIsShown | custom_components/zte_router_5g/coordinator.py:1000-1018 | what a poll took is shown once it is over, and taking it is the success |
| OutageRuns.HeldThreeTimes | custom_components/zte_router_5g/coordinator.py:1072-1106 | three failed polls in a row after a success show what is held; the fourth, or the first with nothing held, is the failure it is |
| OutageRuns.ClosingPollsHold | custom_components/zte_router_5g/coordinator.py:1084-1088 | a closing poll that fails shows what is held and counts nothing |
| OutageRuns.StepKeepsWatch | custom_components/zte_router_5g/coordinator.py:600-758 | every event, in any order, with any checks out at once and polls split at their awaits, keeps an open window watched |
| OutageRuns.RunKeepsWatch | custom_components/zte_router_5g/coordinator.py:600-758 | so does every run |
| OutageRuns.WindowsAreWatched | custom_components/zte_router_5g/coordinator.py:600-758 | over any run an open window has a check armed or running |
| OutageRuns.StepKeepsSpaced | custom_components/zte_router_5g/coordinator.py:600-758 | every event keeps the checks an open window has counted at least a second apart |
| OutageRuns.RunKeepsSpaced | custom_components/zte_router_5g/coordinator.py:600-758 | so does every run |
| OutageRuns.ChecksAreFew | custom_components/zte_router_5g/coordinator.py:600-758 | over any run, whatever windows open over checks, each window has counted fewer checks than its cap has seconds |
| OutageRuns.CheckCountsOrCloses | custom_components/zte_router_5g/coordinator.py:674-688 | over any run a check at or past the cap closes the window, and any other counts itself and probes |
| OutageRuns.ProbeGoesOnExactly | custom_components/zte_router_5g/coordinator.py:685-708 | a check goes on to its closing poll if and only if its probe was answered after a drop, or twenty seconds after the opening; else it is armed again, a second or five ahead |
| OutageRuns.FollowsUpExactly | custom_components/zte_router_5g/coordinator.py:710-758 | over any run a closing poll that succeeded closes the window, and one more poll is due if and only if the connection is not as the command left it to be; the record keeps what the poll showed |
| OutageRuns.HistoryIsNewest | custom_components/zte_router_5g/coordinator.py:600-672 | over any run the records kept are those of the newest five windows, in order |
| OutageRuns.ClosesOnlyOnSuccess | custom_components/zte_router_5g/coordinator.py:710-719 | over any run a window closed by a poll saw one succeed after the probe |
| OutageRuns.ProbeMarksOnlyItsOwn | custom_components/zte_router_5g/coordinator.py:685-705 | over any run a probe marks down or back the record its check began on, and leaves every other alone, whatever windows opened since |
| OutageRuns.StepKeeps | custom_components/zte_router_5g/coordinator.py:600-758 | every event that opens no window over a check keeps the invariant of window, timer, check and record |
| OutageRuns.RunKeeps | custom_components/zte_router_5g/coordinator.py:600-758 | so does every run of those |
| OutageRuns.RecordsAreHonest | custom_components/zte_router_5g/coordinator.py:600-758 | in such a run one check at most is out, and every record tells the truth: an answer implies a drop before a return, no outage implies no drop and the hold |
| OutageRuns.OpensExactlyBetweenChecks | custom_components/zte_router_5g/coordinator.py:600-719 | after any such run, every window that may open leaves the records true in all that follows if and only if no check is out |
| OutageRuns.ClosingMisleads | custom_components/zte_router_5g/coordinator.py:694-719 | a reboot window opened over a closing poll is closed by it |
| OutageRuns.ProbeMisleads | custom_components/zte_router_5g/coordinator.py:685-708 | a reboot window opened over a probe is closed on its answer, which went on the record before |
| OutageRuns.ChecksOutlastTheirCap | custom_components/zte_router_5g/coordinator.py:674-708 | a run to a probe, and one to a closing poll, that are out when the four minutes of a reboot window are over and the gate lets the next command through |
| OutageRuns.TwoChecksAtOnce | custom_components/zte_router_5g/coordinator.py:652-708 | and a run with two checks out |
| OutageRuns.SkippedPollsCountNothing | custom_components/zte_router_5g/coordinator.py:959-979 | a poll skipped at its start changes nothing |
| OutageRuns.FailedPollsCount | custom_components/zte_router_5g/coordinator.py:1019-1088 | a poll that fails before its payload is taken leaves failures and health as they were if and only if a closing poll is under way at its end; taking the payload is what counts a success |
| OutageRuns.PollInFlightCounts | custom_components/zte_router_5g/coordinator.py:959-1088 | a run in which a poll asked before a window opened counts its failure within it |
| Sms.SmsTracker.CheckNewSms | custom_components/zte_router_5g/coordinator.py:2738-2814 | one poll fires and remembers what the specification says |
| Sms.SmsTracker.FireEach | custom_components/zte_router_5g/coordinator.py:2785-2814 | the events in order, the baseline moving with them |
| SmsEvents.HashTellsApart | custom_components/zte_router_5g/coordinator.py:2738-2814 | two messages with plain ids and dates have one hash only if they are one |
| SmsEvents.CheckFires | custom_components/zte_router_5g/coordinator.py:2738-2814 | exactly the dated messages no older than the baseline and not reported before fire |
| SmsEvents.FiredCounts | custom_components/zte_router_5g/coordinator.py:2738-2814 | each of them fires as often as the poll lists it |
| SmsEvents.FiresOnceExactly | custom_components/zte_router_5g/coordinator.py:2738-2814 | a poll fires nothing twice if and only if it lists no such message twice |
| SmsEvents.FollowedKnows | custom_components/zte_router_5g/coordinator.py:2738-2814 | after any polls the tracker knows exactly what it reported and the newest moment shown |
| SmsEvents.NoneFiresTwiceExactly | custom_components/zte_router_5g/coordinator.py:2738-2814 | over any polls no message fires twice if and only if no poll lists news twice |
| SmsEvents.NoneFiresTwice | custom_components/zte_router_5g/coordinator.py:2738-2814 | so over polls free of duplicates no message fires twice |
| SmsEvents.FiresWhenShown | custom_components/zte_router_5g/coordinator.py:2738-2814 | after the baseline poll a message fires if and only if it is shown dated, no older than the newest before, and unreported |
| SmsEvents.BaselineNeverFalls | custom_components/zte_router_5g/coordinator.py:2738-2814 | the baseline never goes back |
| SmsEvents.ListedTwiceFiresTwice | custom_components/zte_router_5g/coordinator.py:2738-2814 | a poll listing one message twice fires it twice |
| KeepLast.KeptAndDeleted | custom_components/zte_router_5g/__init__.py:290-323 | kept and deleted together are the messages given, and exactly as many are kept as asked for |
| KeepLast.NothingNewerDeleted | custom_components/zte_router_5g/__init__.py:290-323 | no dated message goes while an older or undated one stays |
| KeepLast.OnlyTheRestIsDeleted | custom_components/zte_router_5g/__init__.py:336-360 | where no two messages share an id, the ids deleted are exactly those of the messages not kept |
| KeepLast.IdsInParts | custom_components/zte_router_5g/__init__.py:345 | the ids of a list in parts are those of its parts, in order |
| KeepLast.IdOfOne | custom_components/zte_router_5g/__init__.py:345 | and one message has its id, or none to send |
| KeepLast.DeleteBeyond | custom_components/zte_router_5g/__init__.py:336-360 | the ids sent are those of the messages beyond the newest, and an empty list is never sent |
| KeepLast.SendToEach | custom_components/zte_router_5g/__init__.py:236-259 | sending stops at the first failure and names exactly those reached |
| Sorting.SortSorts | custom_components/zte_router_5g/__init__.py:306-321 | the sort is ordered, a permutation and stable |

## Left out

- UptimeGap.ResetIsDated: the reset is hit to the second where the counter was read as it ticked; a whole-second reading may put it a second before or a second and a quarter after.
- UptimeGap.KeptTickingRetains: in a gap under twenty seconds the second lost to whole-second reading could tip an anchor standing exactly on the tolerance, so there the counter must not read below its line.
- UptimeGap.RestartOverGap: a restart between a write and its delayed save is not modelled, and a poll within the first half minute of the counter may store a pair that is not credible for the anchor.
- Discovery.Pass.ProbeNames: the three lists never overlap for distinct names and a router that gives values only to names asked for; silence is read off the log for a pass that starts with nothing on record, as every pass does.
- Poll.Poller.BatchGet: a session that outgrows its learned age between two chunks is replaced whether it lives or not, so the promise of no login ends there.
- Discovery.Pass.SessionStillAlive: the session is confirmed out of band in one request.
- SessionFlag.FlaglessDeviceCostsOneLogin: counts the logins the check itself makes; every write is also preceded by a login of its own.
- Poll.Poller.UpdateData: exact in how the fetch ended, not in the rejections on the log. A rejected password goes unreported while earlier values are held, or when the login counters forbid the second login of the same poll.
- LockPaths.LockProtocol: progress of some task, not of every task; the order in which waiting tasks get a lock is not modelled.
- HTTP transport, cookies, HTML detection and JSON decoding: an answer is one of five kinds. Values are strings, and JSON that is no object is taken as one that is not empty.
- Tokens, hashes, the password's encoding and the readings named by a device's own scripts: a token is derived or it is not.
- Digits of other scripts, and underscores between digits, which Python's `int()` reads: a number is decimal digits with an optional sign.
- Floating point and the rounding of stored values: reals are exact. `int()` of an infinite reading is not modelled, and the floor of the clock is taken in UTC.
- The 30 s ceiling on a poll can end it as a timeout in `Outage`, but `Poll.Poller.Fetch` is never cut short.
- Tasks running together inside one request: `Client` runs one task at a time and `Locks` sees only the locks. A window that opens or closes while a poll waits for the router is in `OutageRuns`, not in `Poll`.
- The outage check is split at its awaits; when a forced-refresh flag is consumed, and the follow-up refresh as such, are left out.
- The reboot command and its own retry, the APN and data-volume forms, the profile's field names, SMS decoding and the verification of a delete.
- Mining names from the router's scripts, the choice of canaries and of witnesses: they enter as lists.
- Uptime counters that pause: the class, its functions and `UptimeDecision` cover them, the stability and gap theorems do not.
- Entities, repairs, diagnostics, translations, logging and timers as such: a timer is armed or it is not.
