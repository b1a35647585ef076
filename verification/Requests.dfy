/** Requests as values, what one answer to a request leads to, and the log of all exchanges,
    oldest first, with the counts that the client's promises are stated in. */
module Requests {
  import opened Options
  import Session

  const REJECTIONS := {"password_error", "invalid_password", "write_error", "unauth"}
  const ACCEPTED := {"success", "0", "ok"}

  /** The client's errors.  `Credentials` is a kind of `Auth`; the last three are kinds of
      `Connection`; `Unexpected` is anything that is not the client's own. */
  datatype Error = Unexpected | Auth | Credentials | Connection | LoginRefused | WriteRefused | OutageRefused

  /** What came back: nothing, the login page, text that is not JSON, JSON that is not an
      object, or an object. */
  datatype Answer = Lost | Html | NotJson | NotObject | Body(payload: Session.Payload)

  /** What came back from a login form, and the read that activates what it made: nothing, an
      error that is not the client's own, or whether a cookie was set, and the result. */
  datatype Reply = NoReply | Raised | Reply(cookies: bool, result: Option<string>)

  predicate Established(r: Reply) { r.Reply? && (r.cookies || (r.result.Some? && Lower(r.result.value) in ACCEPTED)) }

  predicate Rejection(r: Reply) { r.Reply? && !Established(r) && r.result.Some? && r.result.value in REJECTIONS }

  /** What a request is for.  An open read needs no session; only a write changes something. */
  datatype Purpose = Open | Read(name: string) | Write(command: string)

  datatype Call = Call(
    purpose: Purpose, authenticated: bool, requested: Option<seq<string>>, classify: bool, retry: bool,
    afterRelogin: bool)

  predicate Replayable(call: Call) { call.retry && !call.purpose.Write? }

  function Again(call: Call): Call { call.(retry := false, afterRelogin := true) }

  /** An explicit result other than success; an answer without a result is not a refusal. */
  predicate IsRefusal(body: Option<Session.Payload>) {
    body.Some? && "result" in body.value && Lower(body.value["result"]) !in ACCEPTED
  }

  predicate Refused(answer: Answer) { answer.Body? && IsRefusal(Some(answer.payload)) }

  datatype Outcome = Ok(body: Option<Session.Payload>) | Err(error: Error)

  datatype Next = Finish(outcome: Outcome) | Renewal

  /** What one answer leads to. */
  function Disposed(call: Call, answer: Answer, measured: set<string>): Next {
    match answer
    case Lost => Finish(Err(Connection))
    case Html => if call.authenticated && Replayable(call) then Renewal else Finish(Err(Connection))
    case NotJson => if call.authenticated && Replayable(call) then Renewal else Finish(Err(Connection))
    case NotObject => Finish(Ok(None))
    case Body(payload) =>
      match Session.SessionRejected(payload, call.requested, measured, call.classify, call.authenticated,
                            Replayable(call), call.afterRelogin)
      case Stands => Finish(Ok(Some(payload)))
      case Renew => Renewal
      case Unreachable => Finish(Err(Connection))
      case AuthFailed => Finish(Err(Auth))
  }

  /** What any answer leads to, from the request and the answer alone.  A renewal is for a read on a
      session that may still be put again, where the answer is a page or text, looks dead, or says so;
      one already put again fails as unauthorised on the router's word alone. */
  lemma {:induction false} DisposedExactly(call: Call, answer: Answer, measured: set<string>)
    ensures var again := call.authenticated && call.retry && !call.purpose.Write?;
            var wide := Session.WithAliases(measured);
            Disposed(call, answer, measured) ==
            match answer
            case NotObject => Finish(Ok(None))
            case Lost => Finish(Err(Connection))
            case Body(payload) =>
              var starting := call.classify && Session.StartingUp(payload, wide);
              var dead := call.classify && Session.LooksDead(payload, call.requested, wide);
              var says := Session.SaysUnauthorized(payload);
              if !call.authenticated || !(starting || dead || says) then Finish(Ok(Some(payload)))
              else if starting then Finish(Err(Connection))
              else if again then Renewal
              else if says || !call.afterRelogin then Finish(Err(Auth))
              else Finish(Err(Connection))
            case _ => if again then Renewal else Finish(Err(Connection))
    ensures Disposed(Again(call), answer, measured).Finish?
    ensures Again(call).purpose == call.purpose && Again(call).requested == call.requested
            && Again(call).authenticated == call.authenticated && Again(call).classify == call.classify
    ensures Disposed(Again(call), answer, measured) == Finish(Err(Auth)) ==>
              answer.Body? && Session.SaysUnauthorized(answer.payload)
  {
    if answer.Body? {
      Session.RejectedExactly(answer.payload, call.requested, measured, call.classify, call.authenticated,
                              Replayable(call), call.afterRelogin);
      Session.RejectedExactly(answer.payload, call.requested, measured, call.classify, call.authenticated, false, true);
    }
    hide Session.SessionRejected, Session.SaysUnauthorized, Session.StartingUp, Session.LooksDead;
  }

  /** How an outcome came about from the answers to the request: from the last of them, put
      again only where the first called for a renewal; with none, or with a renewal that
      failed, from the login. */
  predicate Explains(call: Call, a: seq<Answer>, r: Outcome, measured: set<string>) {
    match |a|
    case 0 => r.Err? && r.error != Auth && (call.authenticated || r == Err(OutageRefused))
    case 1 =>
      var next := Disposed(call, a[0], measured);
      if next.Renewal? then r.Err? && r.error != Auth else next == Finish(r)
    case 2 =>
      Replayable(call) && Disposed(call, a[0], measured).Renewal? && Disposed(Again(call), a[1], measured) == Finish(r)
    case _ => false
  }

  /** A request that returned did so with its last answer. */
  lemma OutcomeIsLastAnswer(call: Call, a: seq<Answer>, r: Outcome, measured: set<string>)
    requires Explains(call, a, r, measured) && r.Ok?
    ensures a != [] && var last := a[|a| - 1]; if r.body.Some? then last == Body(r.body.value) else last == NotObject
  {}

  /** A read put again on a session just made fails as unauthorised only on the router's own
      word; the mere shape of an expired session is then a connection error. */
  lemma ReplayIsNotBlamedForItsShape(call: Call, a: seq<Answer>, r: Outcome, measured: set<string>)
    requires Explains(call, a, r, measured) && Replayable(call) && r == Err(Auth)
    ensures |a| == 2 && a[1].Body? && Session.SaysUnauthorized(a[1].payload)
  {}

  lemma RenewsOnlyReads(call: Call, answer: Answer, measured: set<string>)
    requires Disposed(call, answer, measured).Renewal?
    ensures Replayable(call) && call.authenticated
  {}

  // ----- the log ----------------------------------------------------------------------

  datatype Entry =
    | LoginBegun
    | Sent(call: Call, answer: Answer)
    | Form(reply: Reply)
    | Activation

  type Log = seq<Entry>

  function Logins(log: Log): nat {
    if log == [] then 0 else Logins(log[..|log| - 1]) + if log[|log| - 1].LoginBegun? then 1 else 0
  }

  /** The forms answered with an explicit rejection of the credentials. */
  function Rejected(log: Log): nat {
    if log == [] then 0
    else
      var last := log[|log| - 1];
      Rejected(log[..|log| - 1]) + if last.Form? && Rejection(last.reply) then 1 else 0
  }

  function Forms(log: Log): nat {
    if log == [] then 0 else Forms(log[..|log| - 1]) + if log[|log| - 1].Form? then 1 else 0
  }

  /** The forms that made a session. */
  function Sessions(log: Log): nat {
    if log == [] then 0
    else
      var last := log[|log| - 1];
      Sessions(log[..|log| - 1]) + if last.Form? && Established(last.reply) then 1 else 0
  }

  /** The forms that raised an error that is not the client's own. */
  function Raises(log: Log): nat {
    if log == [] then 0
    else
      var last := log[|log| - 1];
      Raises(log[..|log| - 1]) + if last.Form? && last.reply.Raised? then 1 else 0
  }

  /** The answers to the login forms put. */
  function Replies(log: Log): seq<Reply> {
    if log == [] then []
    else
      var last := log[|log| - 1];
      Replies(log[..|log| - 1]) + if last.Form? then [last.reply] else []
  }

  /** The writes put on the wire. */
  function Writes(log: Log): nat {
    if log == [] then 0
    else
      var last := log[|log| - 1];
      Writes(log[..|log| - 1]) + if last.Sent? && last.call.purpose.Write? then 1 else 0
  }

  /** The answers to the requests of one purpose. */
  function Answers(log: Log, purpose: Purpose): seq<Answer> {
    if log == [] then []
    else
      var last := log[|log| - 1];
      Answers(log[..|log| - 1], purpose) + if last.Sent? && last.call.purpose == purpose then [last.answer] else []
  }

  lemma Appended(log: Log, e: Entry)
    ensures Logins(log + [e]) == Logins(log) + if e.LoginBegun? then 1 else 0
    ensures Rejected(log + [e]) == Rejected(log) + if e.Form? && Rejection(e.reply) then 1 else 0
    ensures Forms(log + [e]) == Forms(log) + if e.Form? then 1 else 0
    ensures Sessions(log + [e]) == Sessions(log) + if e.Form? && Established(e.reply) then 1 else 0
    ensures Raises(log + [e]) == Raises(log) + if e.Form? && e.reply.Raised? then 1 else 0
    ensures Replies(log + [e]) == Replies(log) + if e.Form? then [e.reply] else []
    ensures Writes(log + [e]) == Writes(log) + if e.Sent? && e.call.purpose.Write? then 1 else 0
    ensures forall p :: Answers(log + [e], p)
                        == Answers(log, p) + if e.Sent? && e.call.purpose == p then [e.answer] else []
  {
    assert (log + [e])[..|log|] == log;
  }

  /** A log goes on from another, and nothing is taken back. */
  ghost predicate Extends(before: Log, after: Log) {
    before <= after && Logins(before) <= Logins(after) && Sessions(before) <= Sessions(after)
    && Rejected(before) <= Rejected(after) && Writes(before) <= Writes(after)
    && Answers(before, Open) <= Answers(after, Open) && Raises(before) <= Raises(after)
  }

  /** The answers to the forms put between two logs. */
  function NewReplies(before: Log, after: Log): seq<Reply> {
    var a, b := Replies(before), Replies(after);
    if |a| <= |b| then b[|a|..] else []
  }

  /** The log as the latest login began. */
  function BeforeLogin(log: Log): Log {
    if log == [] then []
    else if log[|log| - 1].LoginBegun? then log[..|log| - 1]
    else BeforeLogin(log[..|log| - 1])
  }

  lemma {:induction false} LatestLogin(before: Log, after: Log)
    requires before + [LoginBegun] <= after && Logins(after) == Logins(before) + 1
    ensures BeforeLogin(after) == before
  {
    var front := after[..|after| - 1];
    if |after| > |before| + 1 {
      assert before + [LoginBegun] <= front;
      OneMoreLogin(before, front);
      LatestLogin(before, front);
    } else {
      assert front == before;
    }
  }

  lemma {:induction false} OneMoreLogin(before: Log, after: Log)
    requires before + [LoginBegun] <= after
    ensures Logins(after) >= Logins(before) + 1
  {
    var front := after[..|after| - 1];
    if |after| > |before| + 1 {
      assert before + [LoginBegun] <= front;
      OneMoreLogin(before, front);
    } else {
      assert front == before;
    }
  }

  /** Neither taken nor rejected, though answered. */
  predicate NoVerdict(r: Reply) { r.Reply? && !Established(r) && !Rejection(r) }

  /** What the forms of a login come to: what the last of them was answered with. */
  function FormsOutcome(f: seq<Reply>): Option<Error> {
    if f == [] then None
    else
      var last := f[|f| - 1];
      if last.Raised? then Some(Unexpected)
      else if Established(last) then None
      else if Rejection(last) then Some(Credentials)
      else Some(Connection)
  }

  /** Something an error that is not the client's own comes from: a read that needs no session
      answered with what is no object, or a login form that raised. */
  ghost predicate Escapes(before: Log, after: Log) {
    NotObject in Newer(before, after, Open) || Raises(before) < Raises(after)
  }

  lemma EscapesInParts(before: Log, mid: Log, after: Log)
    requires Extends(before, mid) && Extends(mid, after)
    ensures Escapes(before, after) <==> Escapes(before, mid) || Escapes(mid, after)
  {
    hide Logins, Sessions, Rejected, Writes, Answers, Raises;
    assert Newer(before, after, Open) == Newer(before, mid, Open) + Newer(mid, after, Open);
  }

  lemma NothingBefore(before: Log, mid: Log, after: Log, purpose: Purpose)
    requires Answers(mid, purpose) == Answers(before, purpose)
    ensures Newer(before, after, purpose) == Newer(mid, after, purpose)
  {
    hide Answers, Raises;
  }

  lemma NothingAfter(before: Log, mid: Log, after: Log, purpose: Purpose)
    requires Answers(after, purpose) == Answers(mid, purpose)
    ensures Newer(before, after, purpose) == Newer(before, mid, purpose)
  {
    hide Answers, Raises;
  }

  lemma NewerInParts(before: Log, mid: Log, after: Log, purpose: Purpose)
    requires Answers(before, purpose) <= Answers(mid, purpose) <= Answers(after, purpose)
    ensures Newer(before, after, purpose) == Newer(before, mid, purpose) + Newer(mid, after, purpose)
  {
    hide Answers, Raises;
  }

  /** The open reads of a stretch of the log are those of the part that made any. */
  lemma OnlyBetween(before: Log, begun: Log, prepared: Log, after: Log)
    requires Answers(before, Open) == Answers(begun, Open) && Answers(prepared, Open) == Answers(after, Open)
    requires Raises(before) == Raises(begun) && Raises(prepared) == Raises(after)
    ensures Newer(before, after, Open) == Newer(begun, prepared, Open)
    ensures Escapes(before, after) <==> Escapes(begun, prepared)
  {
    hide Answers, Raises;
  }

  lemma NothingEscapes(before: Log, after: Log)
    requires Answers(after, Open) == Answers(before, Open) && Raises(after) == Raises(before)
    ensures !Escapes(before, after)
  {
  }

  /** Nothing but logins and open reads went out between two logs. */
  ghost predicate OnlyOpen(before: Log, after: Log) {
    Extends(before, after) && Writes(after) == Writes(before)
    && forall p: Purpose :: !p.Open? ==> Answers(after, p) == Answers(before, p)
  }

  /** Nothing was written between two logs. */
  ghost predicate OnlyReads(before: Log, after: Log) {
    Extends(before, after) && Writes(after) == Writes(before)
    && forall p: Purpose :: p.Write? ==> Answers(after, p) == Answers(before, p)
  }

  /** Nothing of any other command's was written between two logs. */
  ghost predicate OnlyWrite(before: Log, after: Log, command: string) {
    Extends(before, after) && Answers(before, Write(command)) <= Answers(after, Write(command))
    && Writes(after) == Writes(before) + |Newer(before, after, Write(command))|
    && forall p: Purpose :: p.Write? && p.command != command ==> Answers(after, p) == Answers(before, p)
  }

  /** Nothing but one call's own requests, besides logins, was sent between two logs. */
  ghost predicate OnlyOf(before: Log, after: Log, purpose: Purpose) {
    Extends(before, after) && forall p: Purpose :: !p.Open? && p != purpose ==> Answers(after, p) == Answers(before, p)
  }

  /** What the newest answers of a call were, given how many there were before. */
  function Newer(before: Log, after: Log, purpose: Purpose): seq<Answer> {
    var a, b := Answers(before, purpose), Answers(after, purpose);
    if |a| <= |b| then b[|a|..] else []
  }

  lemma FinishesWithoutRefusal(call: Call, answer: Answer, measured: set<string>)
    requires Disposed(call, answer, measured).Finish?
    ensures var r := Disposed(call, answer, measured).outcome;
            && (r.Err? ==> r.error == Connection || (r.error == Auth && call.authenticated))
            && (r.Ok? ==> !answer.Lost?)
  {}

  function Lower(s: string): string {
    seq(|s|, i requires 0 <= i < |s| => if 'A' <= s[i] <= 'Z' then s[i] - 'A' + 'a' else s[i])
  }

  predicate Space(c: char) { c in {' ', '\t', '\n', '\r', '\U{000B}', '\U{000C}'} }

  function Strip(s: string): string
    decreases |s|
  {
    if s == "" then ""
    else if Space(s[0]) then Strip(s[1..])
    else if Space(s[|s| - 1]) then Strip(s[..|s| - 1])
    else s
  }

  /** A login counter as a number, or nothing where it is blank or not numeric. */
  function GuardInt(payload: Session.Payload, name: string): Option<int> {
    if name in payload then Number(payload[name]) else None
  }

  function Number(s: string): Option<int> {
    var t := Strip(s);
    if t == "" then None
    else if t[0] == '-' || t[0] == '+' then
      if t[1..] != "" && IsDigits(t[1..]) then Some(if t[0] == '-' then -Digits(t[1..]) else Digits(t[1..])) else None
    else if IsDigits(t) then Some(Digits(t))
    else None
  }

  predicate IsDigits(s: string) { forall c :: c in s ==> '0' <= c <= '9' }

  function Digits(s: string): int
    requires IsDigits(s)
  {
    if s == "" then 0
    else
      var front := s[..|s| - 1];
      assert forall c :: c in front ==> c in s;
      Digits(front) * 10 + (s[|s| - 1] as int - '0' as int)
  }

  /** The first spelling a device answered, or nothing. */
  function FirstSpelling(payload: Session.Payload, spellings: seq<string>): string {
    if spellings == [] then ""
    else if spellings[0] in payload && payload[spellings[0]] != "" then payload[spellings[0]]
    else FirstSpelling(payload, spellings[1..])
  }

  /** It is the value of the first spelling that has one, and nothing where none has. */
  lemma {:induction false} FirstSpellingExactly(payload: Session.Payload, spellings: seq<string>)
    ensures var v := FirstSpelling(payload, spellings);
            if v == "" then forall k :: k in spellings ==> !(k in payload && payload[k] != "")
            else exists i :: && 0 <= i < |spellings| && spellings[i] in payload && payload[spellings[i]] == v
                             && forall j :: 0 <= j < i ==> !(spellings[j] in payload && payload[spellings[j]] != "")
  {
    if spellings != [] && !(spellings[0] in payload && payload[spellings[0]] != "") {
      FirstSpellingExactly(payload, spellings[1..]);
      var v := FirstSpelling(payload, spellings);
      if v != "" {
        var i :| && 0 <= i < |spellings[1..]| && spellings[1..][i] in payload && payload[spellings[1..][i]] == v
                 && forall j :: 0 <= j < i ==> !(spellings[1..][j] in payload && payload[spellings[1..][j]] != "");
        assert spellings[i + 1] == spellings[1..][i];
        assert forall j :: 1 <= j < i + 1 ==> spellings[j] == spellings[1..][j - 1];
      }
    }
  }

  // ----- what the readers of text make of text ----------------------------------------------

  predicate Capital(c: char) { 'A' <= c <= 'Z' }

  /** Letter by letter the same, but that some are capitals in one and not in the other. */
  ghost predicate SameButForCase(s: string, t: string) {
    |s| == |t| && forall i :: 0 <= i < |s| ==>
      || s[i] == t[i]
      || (Capital(s[i]) && t[i] as int == s[i] as int + 32)
      || (Capital(t[i]) && s[i] as int == t[i] as int + 32)
  }

  /** Lower case is one spelling of all that differ in case alone, and its own. */
  lemma LowerForgetsCase(s: string, t: string)
    ensures SameButForCase(s, t) ==> Lower(s) == Lower(t)
    ensures (forall c :: c in s ==> !Capital(c)) ==> Lower(s) == s
    ensures forall c :: c in Lower(s) ==> !Capital(c)
  {
    if forall c :: c in s ==> !Capital(c) {
      forall i | 0 <= i < |s| ensures Lower(s)[i] == s[i] { assert s[i] in s; }
    }
  }

  ghost predicate Spaces(s: string) { forall c :: c in s ==> Space(c) }

  /** Stripping takes the spaces from both ends and nothing else. */
  lemma {:induction false} StripTakesSpaces(before: string, s: string, after: string)
    requires Spaces(before) && Spaces(after) && (s == "" || (!Space(s[0]) && !Space(s[|s| - 1])))
    ensures Strip(before + s + after) == s
    decreases |before| + |after|
  {
    var all := before + s + after;
    if before != [] {
      assert before[0] in before && all[1..] == before[1..] + s + after;
      StripTakesSpaces(before[1..], s, after);
    } else if after != [] && s == [] {
      assert all == after && after[0] in after && all[1..] == before + s + after[1..];
      StripTakesSpaces(before, s, after[1..]);
    } else if after != [] {
      assert after[|after| - 1] in after && all[..|all| - 1] == before + s + after[..|after| - 1];
      assert all[0] == s[0] && all[|all| - 1] == after[|after| - 1];
      StripTakesSpaces(before, s, after[..|after| - 1]);
    } else {
      assert all == s;
    }
  }

  /** A number as it is written. */
  function Numeral(n: nat): string
    decreases n
  {
    (if n < 10 then "" else Numeral(n / 10)) + [('0' as int + n % 10) as char]
  }

  lemma {:induction false} DigitsOfNumeral(n: nat)
    ensures IsDigits(Numeral(n)) && Digits(Numeral(n)) == n && Numeral(n) != ""
    decreases n
  {
    var front: string := if n < 10 then "" else Numeral(n / 10);
    if n >= 10 { DigitsOfNumeral(n / 10); }
    var c := ('0' as int + n % 10) as char;
    assert Numeral(n) == front + [c] && Numeral(n)[..|front|] == front && Numeral(n)[|front|] == c;
    assert forall d :: d in front + [c] ==> d in front || d == c;
  }

  /** A counter is read as the number written, signed or not, with any spaces around it. */
  lemma NumberReadsNumerals(before: string, sign: string, n: nat, after: string)
    requires Spaces(before) && Spaces(after) && sign in ["", "-", "+"]
    ensures var r := Number(before + (sign + Numeral(n)) + after);
            r.Some? && r.value == n * if sign == "-" then -1 else 1
  {
    DigitsOfNumeral(n);
    var t := sign + Numeral(n);
    NumeralEnds(sign, Numeral(n));
    hide Strip, Digits, Numeral, IsDigits;
    StripTakesSpaces(before, t, after);
    if sign != "" { assert t[1..] == Numeral(n); } else { assert t == Numeral(n); }
  }

  lemma NumeralEnds(sign: string, d: string)
    requires IsDigits(d) && d != "" && sign in ["", "-", "+"]
    ensures var t := sign + d;
            && t != "" && !Space(t[0]) && !Space(t[|t| - 1])
            && (sign == "" ==> t[0] != '-' && t[0] != '+')
  {
    assert d[0] in d && d[|d| - 1] in d;
  }

  /** And what is read as a number is one, signed or not. */
  lemma NumberReadsNothingElse(s: string)
    requires Number(s).Some?
    ensures exists sign, d :: sign in ["", "-", "+"] && d != "" && IsDigits(d) && Strip(s) == sign + d
  {
    var t := Strip(s);
    if t[0] == '-' {
      assert t == "-" + t[1..];
    } else if t[0] == '+' {
      assert t == "+" + t[1..];
    } else {
      assert t == "" + t;
    }
  }

  ghost predicate IsWord(s: string, words: set<string>) { exists w :: w in words && SameButForCase(s, w) }

  lemma LowerIsWord(s: string)
    ensures Lower(s) in ACCEPTED <==> IsWord(s, ACCEPTED)
  {
    var t := Lower(s);
    if t in ACCEPTED { assert SameButForCase(s, t); }
    if w :| w in ACCEPTED && SameButForCase(s, w) {
      LowerForgetsCase(s, w);
      LowerForgetsCase(w, w);
      assert forall c :: c in "success" || c in "0" || c in "ok" ==> !Capital(c);
    }
  }

  /** A login form made a session exactly where it was answered with a cookie of any name, or with a
      word of success in any case; it is a rejection only of what is neither. */
  lemma EstablishedExactly(r: Reply)
    ensures Established(r)
            <==> r.Reply? && (r.cookies || (r.result.Some? && IsWord(r.result.value, {"success", "0", "ok"})))
    ensures Rejection(r) ==> !Established(r) && r.Reply? && !r.cookies && r.result.Some?
    ensures forall w :: w in {"password_error", "invalid_password", "write_error", "unauth"} ==>
              Rejection(Reply(false, Some(w)))
  {
    if r.Reply? && r.result.Some? { LowerIsWord(r.result.value); }
    hide SameButForCase;
    assert |"success"| == 7 && |"0"| == 1 && |"ok"| == 2;
  }

  /** An answer refuses a write exactly where it has a result that is no word of success, in any case. */
  lemma RefusalExactly(body: Option<Session.Payload>)
    ensures IsRefusal(body) <==>
              body.Some? && "result" in body.value && !IsWord(body.value["result"], {"success", "0", "ok"})
  {
    if body.Some? && "result" in body.value { LowerIsWord(body.value["result"]); }
  }
}
