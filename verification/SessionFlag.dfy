/** The reading by which a router says whether it is logged in, and what a client comes to
    believe about a device that may not implement it.

    A device echoes a reading it does not implement as an empty value, so a blank answer
    alone cannot tell such a device from a dead session. */
module SessionFlag {
  import opened Options
  import opened Requests
  import Session

  datatype Flag = Confirmed | Denied | Unanswered | Unproven

  /** The firmware each belief was formed on, the empty string where it was not yet known,
      and the firmware known now. */
  datatype Beliefs = Beliefs(seen: Option<string>, absent: Option<string>, firmware: Option<string>)

  predicate Holds(recorded: Option<string>, firmware: Option<string>) {
    recorded.Some? && (recorded.value == "" || firmware.None? || recorded == firmware)
  }

  /** A belief formed before the firmware was known takes it up when asked about. */
  function Adopted(recorded: Option<string>, firmware: Option<string>): Option<string> {
    if recorded == Some("") && firmware.Some? && firmware.value != "" then firmware else recorded
  }

  predicate Supported(b: Beliefs) { Holds(b.seen, b.firmware) }

  predicate Absent(b: Beliefs) { Holds(b.absent, b.firmware) }

  function FirmwareNow(b: Beliefs): string { if b.firmware.Some? then b.firmware.value else "" }

  predicate SaysOk(seen: Option<string>, ok: string) { seen.Some? && Strip(seen.value) == ok }

  /** The verdict of one read, and the beliefs after it; `seen` is the value answered, if one
      was. */
  function FlagRead(b: Beliefs, seen: Option<string>, ok: string): (Flag, Beliefs) {
    if seen.None? then (Unanswered, b)
    else if SaysOk(seen, ok) then (Confirmed, b.(seen := Some(FirmwareNow(b))))
    else
      var asked := b.(seen := Adopted(b.seen, b.firmware));
      if Supported(b) then (Denied, asked)
      else (if Absent(b) then Unanswered else Unproven, asked.(absent := Adopted(b.absent, b.firmware)))
  }

  /** Whether a read calls for logging in again. */
  predicate Doubts(b: Beliefs, seen: Option<string>, ok: string) {
    FlagRead(b, seen, ok).0 in {Denied, Unproven}
  }

  /** The beliefs after a doubted read, a login, and where that succeeded a second read. */
  function Rechecked(flag: Flag, asked: Beliefs, loggedIn: bool, second: Option<string>, ok: string): Beliefs {
    if !loggedIn then asked
    else
      var (again, after) := FlagRead(asked, second, ok);
      if flag == Unproven && again != Confirmed then after.(absent := Some(FirmwareNow(after))) else after
  }

  /** The beliefs after a check before a write: a read, and, where it doubts the session, a
      login and where that succeeds a second read. */
  function Checked(b: Beliefs, first: Option<string>, loggedIn: bool, second: Option<string>, ok: string): Beliefs {
    var (flag, asked) := FlagRead(b, first, ok);
    if Doubts(b, first, ok) then Rechecked(flag, asked, loggedIn, second, ok) else asked
  }

  // ----- what the last check came to ----------------------------------------------------

  datatype Attempt = NotTried | Failed | Made

  datatype LastCheck = Unchecked | ByFlag(verdict: Flag, relogin: Attempt) | ByWitness(reading: Option<Session.Verdict>)

  /** The one state in which a write that must not go out twice is withheld. */
  predicate Withheld(b: Beliefs, last: LastCheck) {
    Supported(b) && last.ByFlag? && last.verdict == Denied
  }


  /** What a doubted check notes down; nothing where it falls back to the witnesses. */
  function NotedAgain(flag: Flag, asked: Beliefs, loggedIn: bool, second: Option<string>,
      ok: string): Option<LastCheck> {
    var again := FlagRead(asked, second, ok).0;
    if flag == Denied then Some(if loggedIn then ByFlag(again, Made) else ByFlag(Denied, Failed))
    else if loggedIn && again == Confirmed then Some(ByFlag(Confirmed, Made))
    else None
  }

  /** What a check before a write notes down. */
  function Noted(b: Beliefs, first: Option<string>, loggedIn: bool, second: Option<string>,
      ok: string): Option<LastCheck> {
    var (flag, asked) := FlagRead(b, first, ok);
    match flag
    case Confirmed => Some(ByFlag(Confirmed, NotTried))
    case Unanswered => None
    case _ => NotedAgain(flag, asked, loggedIn, second, ok)
  }

  /** A check has a write withheld exactly when the device is known to answer the reading, it
      denied the session, and logging in failed or was followed by a second denial. */
  lemma WithheldExactly(b: Beliefs, first: Option<string>, loggedIn: bool, second: Option<string>, ok: string)
    ensures Noted(b, first, loggedIn, second, ok).Some?
              && Withheld(Checked(b, first, loggedIn, second, ok), Noted(b, first, loggedIn, second, ok).value)
            <==> Supported(b) && first.Some? && !SaysOk(first, ok)
                 && (loggedIn ==> second.Some? && !SaysOk(second, ok))
  {
  }

  /** A belief holds for the firmware it was formed on; one formed before a firmware was known holds
      for any, and no firmware known leaves any in place. */
  ghost predicate Believed(recorded: Option<string>, firmware: Option<string>) {
    match recorded
    case None => false
    case Some(r) => r == "" || firmware.None? || firmware.value == r
  }

  /** What one read comes to.  A value other than ok is a denial only of a device believed to answer;
      else it proves nothing where the device is believed not to, and is in doubt where neither is. */
  lemma VerdictExactly(b: Beliefs, seen: Option<string>, ok: string)
    ensures var flag := FlagRead(b, seen, ok).0;
            var knows, lacks := Believed(b.seen, b.firmware), Believed(b.absent, b.firmware);
            && (flag == Confirmed <==> seen.Some? && Strip(seen.value) == ok)
            && (flag == Denied <==> seen.Some? && Strip(seen.value) != ok && knows)
            && (flag == Unproven <==> seen.Some? && Strip(seen.value) != ok && !knows && !lacks)
    ensures var after := FlagRead(b, seen, ok).1;
            && after.firmware == b.firmware
            && (seen.None? ==> after == b)
            && (seen.Some? && Strip(seen.value) == ok ==>
                  after == b.(seen := Some(if b.firmware.Some? then b.firmware.value else "")))
  {
    hide Strip;
  }

  /** A belief is not lost by asking, and one formed before the firmware was known is from then on
      one about that firmware. */
  lemma AskingAdopts(b: Beliefs, seen: Option<string>, ok: string)
    requires seen.Some? && !SaysOk(seen, ok)
    ensures var after := FlagRead(b, seen, ok).1;
            && after.seen == (if b.seen == Some("") && b.firmware.Some? then b.firmware else b.seen)
            && (Supported(b) ==> after.absent == b.absent)
            && (!Supported(b) ==>
                  after.absent == if b.absent == Some("") && b.firmware.Some? then b.firmware else b.absent)
  {
  }

  /** What a check notes down and comes to believe, from its two reads and its login. */
  lemma CheckedExactly(b: Beliefs, first: Option<string>, loggedIn: bool, second: Option<string>, ok: string)
    ensures var (flag, asked) := FlagRead(b, first, ok);
            var (again, after) := FlagRead(asked, second, ok);
            var noted, now := Noted(b, first, loggedIn, second, ok), Checked(b, first, loggedIn, second, ok);
            match flag
            case Confirmed => noted == Some(ByFlag(Confirmed, NotTried)) && now == asked
            case Unanswered => noted.None? && now == asked
            case Denied =>
              if loggedIn then noted == Some(ByFlag(again, Made)) && now == after
              else noted == Some(ByFlag(Denied, Failed)) && now == asked
            case Unproven =>
              if !loggedIn then noted.None? && now == asked
              else if again == Confirmed then noted == Some(ByFlag(Confirmed, Made)) && now == after
              else
                && noted.None?
                && now == after.(absent := Some(if after.firmware.Some? then after.firmware.value else ""))
  {
    hide FlagRead;
  }

  // ----- runs ----------------------------------------------------------------------------

  datatype Step =
    | Check(first: Option<string>, loggedIn: bool, second: Option<string>)
    | Learn(firmware: Option<string>)

  function After(b: Beliefs, step: Step, ok: string): Beliefs {
    match step
    case Check(first, loggedIn, second) => Checked(b, first, loggedIn, second, ok)
    case Learn(firmware) => b.(firmware := firmware)
  }

  function Run(b: Beliefs, steps: seq<Step>, ok: string): Beliefs {
    if steps == [] then b else After(Run(b, steps[..|steps| - 1], ok), steps[|steps| - 1], ok)
  }

  /** The logins the checks of a run made. */
  function Relogins(b: Beliefs, steps: seq<Step>, ok: string): nat {
    if steps == [] then 0
    else
      var last, before := steps[|steps| - 1], Run(b, steps[..|steps| - 1], ok);
      Relogins(b, steps[..|steps| - 1], ok)
      + if last.Check? && last.loggedIn && Doubts(before, last.first, ok) then 1 else 0
  }

  function Changes(b: Beliefs, steps: seq<Step>, ok: string): nat {
    if steps == [] then 0
    else
      var last, before := steps[|steps| - 1], Run(b, steps[..|steps| - 1], ok);
      Changes(b, steps[..|steps| - 1], ok)
      + if last.Learn? && last.firmware != before.firmware then 1 else 0
  }

  ghost predicate NeverOk(steps: seq<Step>, ok: string) {
    forall s :: s in steps && s.Check? ==> !SaysOk(s.first, ok) && !SaysOk(s.second, ok)
  }

  /** One check on a device not known to answer: it makes a login only where the reading is
      not yet believed absent, and after that login it is. */
  lemma CheckWithoutTheFlag(b: Beliefs, first: Option<string>, loggedIn: bool, second: Option<string>, ok: string)
    requires b.seen.None? && !SaysOk(first, ok) && !SaysOk(second, ok)
    ensures var after := Checked(b, first, loggedIn, second, ok);
            && after.seen.None? && after.firmware == b.firmware
            && (Absent(b) ==> Absent(after))
            && (loggedIn && Doubts(b, first, ok) ==> !Absent(b) && Absent(after))
  {
  }

  /** On a device that never answers the reading, the checks of any run make at most one login
      for each change of the known firmware, and one more; between two changes, at most one.
      No check ever has a write withheld. */
  lemma {:induction false} FlaglessDeviceCostsOneLogin(b: Beliefs, steps: seq<Step>, ok: string)
    requires b.seen.None? && NeverOk(steps, ok)
    ensures Run(b, steps, ok).seen.None?
    ensures Relogins(b, steps, ok) + (if Absent(Run(b, steps, ok)) then 0 else 1) <= Changes(b, steps, ok) + 1
    ensures Changes(b, steps, ok) == 0 ==> Relogins(b, steps, ok) <= if Absent(b) then 0 else 1
    ensures Changes(b, steps, ok) == 0 && Absent(b) ==> Absent(Run(b, steps, ok))
    ensures forall last :: !Withheld(Run(b, steps, ok), last)
  {
    if steps != [] {
      var init, last := steps[..|steps| - 1], steps[|steps| - 1];
      assert NeverOk(init, ok);
      FlaglessDeviceCostsOneLogin(b, init, ok);
      if last.Check? {
        assert last in steps;
        CheckWithoutTheFlag(Run(b, init, ok), last.first, last.loggedIn, last.second, ok);
      }
    }
  }

  /** A device that answered ok once is believed to from then on, through any checks, until another
      firmware is known. */
  lemma {:induction false} OnceConfirmedIsKnown(b: Beliefs, steps: seq<Step>, ok: string)
    requires Changes(b, steps, ok) == 0
    ensures Supported(b) ==> Supported(Run(b, steps, ok))
    ensures Run(b, steps, ok).firmware == b.firmware
    ensures forall seen :: SaysOk(seen, ok) ==> Supported(FlagRead(b, seen, ok).1)
  {
    if steps != [] {
      OnceConfirmedIsKnown(b, steps[..|steps| - 1], ok);
    }
  }

  /** A belief about one firmware says nothing of another. */
  lemma AnotherFirmwareForgets(b: Beliefs, firmware: string)
    requires b.seen.Some? && b.seen.value != "" && firmware != b.seen.value
    ensures !Supported(b.(firmware := Some(firmware)))
  {
  }

  /** The one login does happen, and another with another firmware, but not with the same. */
  lemma TheLoginHappens(ok: string)
    requires ok != ""
    ensures var b, check := Beliefs(None, None, None), Check(Some(""), true, Some(""));
            && Relogins(b, [check], ok) == 1 && Relogins(b, [check] + [check], ok) == 1
            && Relogins(b.(absent := Some("B01"), firmware := Some("B02")), [check], ok) == 1
    ensures var learn := Learn(Some("B01"));
            Changes(Beliefs(None, None, None), [learn] + [learn], ok) == 1
  {
    var b, check, learn := Beliefs(None, None, None), Check(Some(""), true, Some("")), Learn(Some("B01"));
    assert Strip("") == "";
    assert ([check] + [check])[..1] == [check] && [check][..0] == [];
    assert ([learn] + [learn])[..1] == [learn] && [learn][..0] == [];
    assert "B01"[2] != "B02"[2];
    assert Run(b, [check], ok) == Checked(b, Some(""), true, Some(""), ok);
    assert Run(b, [learn], ok) == b.(firmware := Some("B01")) && Changes(b, [learn], ok) == 1;
    var twice := [learn] + [learn];
    assert twice[..|twice| - 1] == [learn] && twice[|twice| - 1] == learn;
  }
}
