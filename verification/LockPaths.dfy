/** The tasks of the integration as the locks see them, one function a code path. */
module LockPaths {
  import opened Locks

  function Maybe(p: Prog): Prog { Either(Idle, p) }

  /** `login`: two reads, perhaps a third, one form or two, the activating read. */
  function Login(): Prog {
    var x := Exchange(OfLogin);
    With(LoginLock, Then(x, Then(x, Then(Maybe(x), Then(x, Then(Maybe(x), Maybe(x)))))))
  }

  /** One try of a read: a login where no session is held, then the exchange. */
  function ReadOnce(k: Kind): Prog { Then(Maybe(Login()), Exchange(k)) }

  /** A read that may be put again after a login. */
  function Read(k: Kind): Prog { Then(ReadOnce(k), Maybe(Then(Login(), ReadOnce(k)))) }

  /** The request of a write, which is never put again. */
  function WriteRequest(): Prog { Then(Maybe(Login()), WithinWait(WriteLock, Exchange(OfWrite))) }

  function Batch(k: Kind): Prog { Repeat(Read(k)) }

  function LockedBatch(): Prog { With(WriteLock, Batch(OfBatch)) }

  function FetchAll(): Prog {
    Then(LockedBatch(), Then(Maybe(LockedBatch()), Then(Maybe(Read(OfTurn)), Maybe(Read(OfTurn)))))
  }

  /** A poll: nothing where it is skipped, else the fetch, perhaps a login and the fetch again. */
  function Poll(): Prog {
    With(UpdateLock, Maybe(Then(FetchAll(), Then(Maybe(Then(Login(), FetchAll())), Maybe(Batch(OfTurn))))))
  }

  function EnsureSession(): Prog {
    Then(ReadOnce(Plain), Then(Maybe(Then(Login(), ReadOnce(Plain))), Maybe(ReadOnce(Plain))))
  }

  function AdSuffix(): Prog {
    var x := Maybe(Exchange(Plain));
    Then(Maybe(Login()), Then(EnsureSession(), Then(x, Then(x, Maybe(Read(Plain))))))
  }

  /** A write command: its token, its request, and the reads that follow a refusal. */
  function Write(): Prog {
    Then(AdSuffix(), Then(WriteRequest(), Then(Maybe(ReadOnce(Plain)), Maybe(ReadOnce(Plain)))))
  }

  function RetriedWrite(): Prog { Then(Write(), Maybe(Write())) }

  function SendSms(): Prog { Then(ReadOnce(Plain), Then(Write(), Maybe(ReadOnce(Plain)))) }

  /** A discovery pass: probes and other reads, each perhaps behind a logout and a login. */
  function Discovery(): Prog {
    With(UpdateLock,
         Repeat(Either(Read(OfTurn),
                       Either(Exchange(OfTurn), Then(Maybe(Write()), Then(Login(), Maybe(Batch(OfTurn))))))))
  }

  function SmsSnapshot(): Prog { With(UpdateLock, Then(Read(OfTurn), Read(OfTurn))) }

  /** The check of an expected-outage window, with its closing poll. */
  function OutageCheck(): Prog { Then(Exchange(Plain), Maybe(Poll())) }

  /** What one call into the client or the coordinator does. */
  ghost predicate Command(p: Prog) {
    p in {Idle, Exchange(Plain), Read(Plain), Batch(Plain), Login(), Write(), RetriedWrite(), SendSms(), Poll(),
          Discovery(), SmsSnapshot(), OutageCheck()}
  }

  /** A task is commands in any order, chosen and repeated as its caller likes: a delete and its
      verification, a reboot watched and put again, a setup, sends to several numbers. */
  ghost predicate KnownTask(p: Prog) {
    Command(p) ||
    match p
    case Then(a, b) => KnownTask(a) && KnownTask(b)
    case Either(a, b) => KnownTask(a) && KnownTask(b)
    case Repeat(a) => KnownTask(a)
    case _ => false
  }

  // ----- every path takes its locks in order ------------------------------------------

  /** Locks are taken in order above a level, and every exchange goes out under its own. */
  ghost predicate Fine(p: Prog, level: nat, behind: set<Lock>) { Safe(p, level) && Guarded(p, behind) }

  lemma FineExchange(k: Kind, level: nat, behind: set<Lock>)
    requires Under(k) <= behind
    ensures Fine(Exchange(k), level, behind) && Fine(Idle, level, behind)
  {
  }

  lemma FineThen(a: Prog, b: Prog, level: nat, behind: set<Lock>)
    requires Fine(a, level, behind) && Fine(b, level, behind)
    ensures Fine(Then(a, b), level, behind)
  {
  }

  lemma FineEither(a: Prog, b: Prog, level: nat, behind: set<Lock>)
    requires Fine(a, level, behind) && Fine(b, level, behind)
    ensures Fine(Either(a, b), level, behind)
  {
  }

  lemma FineMaybe(p: Prog, level: nat, behind: set<Lock>)
    requires Fine(p, level, behind)
    ensures Fine(Maybe(p), level, behind)
  {
    FineExchange(Plain, level, behind);
    FineEither(Idle, p, level, behind);
  }

  lemma FineRepeat(p: Prog, level: nat, behind: set<Lock>)
    requires Fine(p, level, behind)
    ensures Fine(Repeat(p), level, behind)
  {
  }

  lemma FineWith(l: Lock, p: Prog, level: nat, behind: set<Lock>)
    requires Rank(l) > level && Fine(p, Rank(l), behind + {l})
    ensures Fine(With(l, p), level, behind)
  {
  }

  lemma FineLogin(level: nat, behind: set<Lock>)
    requires level < 3
    ensures Fine(Login(), level, behind)
  {
    hide Fine;
    var x, m, inside := Exchange(OfLogin), Maybe(Exchange(OfLogin)), behind + {LoginLock};
    FineExchange(OfLogin, 3, inside);
    FineMaybe(x, 3, inside);
    FineThen(m, m, 3, inside);
    FineThen(x, Then(m, m), 3, inside);
    FineThen(m, Then(x, Then(m, m)), 3, inside);
    FineThen(x, Then(m, Then(x, Then(m, m))), 3, inside);
    FineThen(x, Then(x, Then(m, Then(x, Then(m, m)))), 3, inside);
    FineWith(LoginLock, Then(x, Then(x, Then(m, Then(x, Then(m, m))))), level, behind);
  }

  lemma FineRead(k: Kind, level: nat, behind: set<Lock>)
    requires level < 3 && Under(k) <= behind
    ensures Fine(ReadOnce(k), level, behind) && Fine(Read(k), level, behind) && Fine(Batch(k), level, behind)
  {
    hide Fine, Login;
    FineLogin(level, behind);
    FineExchange(k, level, behind);
    FineMaybe(Login(), level, behind);
    FineThen(Maybe(Login()), Exchange(k), level, behind);
    FineThen(Login(), ReadOnce(k), level, behind);
    FineMaybe(Then(Login(), ReadOnce(k)), level, behind);
    FineThen(ReadOnce(k), Maybe(Then(Login(), ReadOnce(k))), level, behind);
    FineRepeat(Read(k), level, behind);
  }

  const TURN := {UpdateLock}

  lemma FineFetch()
    ensures Fine(FetchAll(), 1, TURN)
  {
    hide Fine, Read, ReadOnce, Batch;
    FineRead(OfTurn, 1, TURN);
    FineRead(OfBatch, 2, TURN + {WriteLock});
    FineWith(WriteLock, Batch(OfBatch), 1, TURN);
    hide LockedBatch;
    var r := Maybe(Read(OfTurn));
    FineMaybe(LockedBatch(), 1, TURN);
    FineMaybe(Read(OfTurn), 1, TURN);
    FineThen(r, r, 1, TURN);
    FineThen(Maybe(LockedBatch()), Then(r, r), 1, TURN);
    FineThen(LockedBatch(), Then(Maybe(LockedBatch()), Then(r, r)), 1, TURN);
  }

  lemma FinePoll()
    ensures Fine(Poll(), 0, {})
  {
    hide Fine, FetchAll, Login, Batch;
    FineFetch();
    FineLogin(1, TURN);
    FineRead(OfTurn, 1, TURN);
    FineThen(Login(), FetchAll(), 1, TURN);
    FineMaybe(Then(Login(), FetchAll()), 1, TURN);
    FineMaybe(Batch(OfTurn), 1, TURN);
    var tail := Then(Maybe(Then(Login(), FetchAll())), Maybe(Batch(OfTurn)));
    FineThen(Maybe(Then(Login(), FetchAll())), Maybe(Batch(OfTurn)), 1, TURN);
    FineThen(FetchAll(), tail, 1, TURN);
    FineMaybe(Then(FetchAll(), tail), 1, TURN);
    assert {} + {UpdateLock} == TURN;
    FineWith(UpdateLock, Maybe(Then(FetchAll(), tail)), 0, {});
  }

  lemma FineAdSuffix(level: nat, behind: set<Lock>)
    requires level < 2
    ensures Fine(AdSuffix(), level, behind)
  {
    hide Fine, Login, Read, ReadOnce;
    var once, x := ReadOnce(Plain), Maybe(Exchange(Plain));
    FineRead(Plain, level, behind);
    FineLogin(level, behind);
    FineExchange(Plain, level, behind);
    FineMaybe(Login(), level, behind);
    FineMaybe(once, level, behind);
    FineThen(Login(), once, level, behind);
    FineMaybe(Then(Login(), once), level, behind);
    FineThen(Maybe(Then(Login(), once)), Maybe(once), level, behind);
    FineThen(once, Then(Maybe(Then(Login(), once)), Maybe(once)), level, behind);
    hide EnsureSession;
    FineMaybe(Exchange(Plain), level, behind);
    FineMaybe(Read(Plain), level, behind);
    FineThen(x, Maybe(Read(Plain)), level, behind);
    FineThen(x, Then(x, Maybe(Read(Plain))), level, behind);
    FineThen(EnsureSession(), Then(x, Then(x, Maybe(Read(Plain)))), level, behind);
    FineThen(Maybe(Login()), Then(EnsureSession(), Then(x, Then(x, Maybe(Read(Plain))))), level, behind);
  }

  /** A write is fine behind the bounded wait for the write lock. */
  lemma FineWriteRequest(level: nat, behind: set<Lock>)
    requires level < 2
    ensures Fine(WriteRequest(), level, behind)
  {
    hide Login;
    FineLogin(level, behind);
    FineMaybe(Login(), level, behind);
    var x := Exchange(OfWrite);
    assert Safe(x, 2) && Safe(x, level) && Guarded(x, behind + {WriteLock}) && OnlyWrites(x);
    assert Fine(WithinWait(WriteLock, x), level, behind);
    hide Fine;
    FineThen(Maybe(Login()), WithinWait(WriteLock, x), level, behind);
  }

  lemma FineWrite(level: nat, behind: set<Lock>)
    requires level < 2
    ensures Fine(Write(), level, behind)
  {
    hide Fine, AdSuffix, WriteRequest, ReadOnce;
    FineRead(Plain, level, behind);
    FineAdSuffix(level, behind);
    FineWriteRequest(level, behind);
    var after := Then(Maybe(ReadOnce(Plain)), Maybe(ReadOnce(Plain)));
    FineMaybe(ReadOnce(Plain), level, behind);
    FineThen(Maybe(ReadOnce(Plain)), Maybe(ReadOnce(Plain)), level, behind);
    FineThen(WriteRequest(), after, level, behind);
    FineThen(AdSuffix(), Then(WriteRequest(), after), level, behind);
  }

  lemma FineDiscovery()
    ensures Fine(Discovery(), 0, {})
  {
    hide Fine, Read, Write, Login, Batch;
    var x := Exchange(OfTurn);
    FineRead(OfTurn, 1, TURN);
    FineWrite(1, TURN);
    FineLogin(1, TURN);
    FineExchange(OfTurn, 1, TURN);
    FineMaybe(Batch(OfTurn), 1, TURN);
    FineThen(Login(), Maybe(Batch(OfTurn)), 1, TURN);
    FineMaybe(Write(), 1, TURN);
    var renew := Then(Maybe(Write()), Then(Login(), Maybe(Batch(OfTurn))));
    FineThen(Maybe(Write()), Then(Login(), Maybe(Batch(OfTurn))), 1, TURN);
    FineEither(x, renew, 1, TURN);
    FineEither(Read(OfTurn), Either(x, renew), 1, TURN);
    FineRepeat(Either(Read(OfTurn), Either(x, renew)), 1, TURN);
    assert {} + {UpdateLock} == TURN;
    FineWith(UpdateLock, Repeat(Either(Read(OfTurn), Either(x, renew))), 0, {});
  }

  lemma FineShortTasks()
    ensures Fine(SmsSnapshot(), 0, {}) && Fine(OutageCheck(), 0, {})
    ensures Fine(RetriedWrite(), 0, {}) && Fine(SendSms(), 0, {})
  {
    hide Fine, Read, ReadOnce, Poll, Write;
    FineRead(OfTurn, 1, TURN);
    FineRead(Plain, 0, {});
    FineThen(Read(OfTurn), Read(OfTurn), 1, TURN);
    assert {} + {UpdateLock} == TURN;
    FineWith(UpdateLock, Then(Read(OfTurn), Read(OfTurn)), 0, {});
    FinePoll();
    FineExchange(Plain, 0, {});
    FineMaybe(Poll(), 0, {});
    FineThen(Exchange(Plain), Maybe(Poll()), 0, {});
    FineWrite(0, {});
    FineMaybe(Write(), 0, {});
    FineThen(Write(), Maybe(Write()), 0, {});
    FineMaybe(ReadOnce(Plain), 0, {});
    FineThen(Write(), Maybe(ReadOnce(Plain)), 0, {});
    FineThen(ReadOnce(Plain), Then(Write(), Maybe(ReadOnce(Plain))), 0, {});
  }

  lemma CommandsAreFine(p: Prog)
    requires Command(p)
    ensures Fine(p, 0, {})
  {
    hide Fine, Poll, RetriedWrite, SendSms, Discovery, SmsSnapshot, OutageCheck, Login, Read, Batch, Write;
    FinePoll();
    FineShortTasks();
    FineDiscovery();
    FineLogin(0, {});
    FineRead(Plain, 0, {});
    FineWrite(0, {});
    FineExchange(Plain, 0, {});
  }

  /** Every task of the integration takes its locks in order and posts as it should. */
  lemma {:induction false} KnownTasksAreFine(p: Prog)
    requires KnownTask(p)
    ensures Fine(p, 0, {})
  {
    hide Fine, Command;
    if Command(p) {
      CommandsAreFine(p);
    } else {
      match p
      case Then(a, b) =>
        KnownTasksAreFine(a);
        KnownTasksAreFine(b);
        FineThen(a, b, 0, {});
      case Either(a, b) =>
        KnownTasksAreFine(a);
        KnownTasksAreFine(b);
        FineEither(a, b, 0, {});
      case Repeat(a) =>
        KnownTasksAreFine(a);
        FineRepeat(a, 0, {});
    }
  }

  /** Any number of the integration's tasks, none started. */
  function Started(ps: seq<Prog>): State { seq(|ps|, i requires 0 <= i < |ps| => [Do(ps[i])]) }

  lemma StartedTask(p: Prog)
    requires Fine(p, 0, {})
    ensures Ordered([Do(p)]) && GuardedTask([Do(p)]) && forall l :: !Holds([Do(p)], l)
  {
    OrderedPush(p, []);
    assert Behind([]) == {};
    GuardedPush(Do(p), []);
    assert [Do(p)] + [] == [Do(p)];
  }

  lemma StartedIsSound(ps: seq<Prog>)
    requires forall p :: p in ps ==> KnownTask(p)
    ensures Sound(Started(ps)) && AllGuarded(Started(ps))
  {
    hide Fine, KnownTask, Ordered, GuardedTask, Holds;
    var s := Started(ps);
    forall i | 0 <= i < |s| ensures Ordered(s[i]) && GuardedTask(s[i]) && forall l :: !Holds(s[i], l) {
      KnownTasksAreFine(ps[i]);
      StartedTask(ps[i]);
    }
  }

  /** However tasks made of polls, writes, sends, discovery passes, snapshots, outage checks, reads
      and logins interleave, and whichever are cut short: every wait is for a higher lock than those
      held; someone unfinished can always go on; and no exchange goes out while another task is
      inside one of its locks, but a write whose wait ran out.  So logins never mix, polls and
      passes take turns, and nothing but such a write goes between the reads of a batch. */
  lemma {:induction false} LockProtocol(ps: seq<Prog>, moves: seq<Move>)
    requires (forall p :: p in ps ==> KnownTask(p)) && Run(Started(ps), moves)
    ensures var s := After(Started(ps), moves);
            && (forall i, l, held :: 0 <= i < |s| && WaitsFor(s[i], l) && Holds(s[i], held) ==> Rank(held) < Rank(l))
            && ((exists k :: 0 <= k < |s| && s[k] != []) ==> exists i, u :: 0 <= i < |s| && Advances(s[i], u, s))
            && (forall i, j, k, l :: 0 <= i < |s| && 0 <= j < |s| && i != j && Puts(s[i], k) && l in Under(k)
                                     && Holds(s[j], l) ==>
                  k == OfWrite && TimedOut(WriteLock) in s[i])
            && (forall i, j, k, o :: 0 <= i < |s| && 0 <= j < |s| && i != j && Puts(s[i], k) && Puts(s[j], o)
                                     && Under(k) * Under(o) != {} ==>
                  k == OfWrite || o == OfWrite)
  {
    StartedIsSound(ps);
    RunKeepsSound(Started(ps), moves);
    RunKeepsGuarded(Started(ps), moves);
    var s := After(Started(ps), moves);
    forall i, l, held | 0 <= i < |s| && WaitsFor(s[i], l) && Holds(s[i], held) ensures Rank(held) < Rank(l) {
      WaitsAreOrdered(s[i], l, held);
    }
    if exists k :: 0 <= k < |s| && s[k] != [] {
      var i, u := SomeTaskCanGoOn(s);
    }
    forall i, j, k, l | 0 <= i < |s| && 0 <= j < |s| && i != j && Puts(s[i], k) && l in Under(k) && Holds(s[j], l)
      ensures k == OfWrite && TimedOut(WriteLock) in s[i]
    {
      OverlapOnlyAfterTimeout(s, i, j, k, l);
    }
    forall i, j, k, o | 0 <= i < |s| && 0 <= j < |s| && i != j && Puts(s[i], k) && Puts(s[j], o)
                        && Under(k) * Under(o) != {}
      ensures k == OfWrite || o == OfWrite
    {
      TwoPut(s, i, j, k, o);
    }
  }

  lemma TwoPut(s: State, i: int, j: int, k: Kind, o: Kind)
    requires Sound(s) && AllGuarded(s) && 0 <= i < |s| && 0 <= j < |s| && i != j
    requires Puts(s[i], k) && Puts(s[j], o) && Under(k) * Under(o) != {}
    ensures k == OfWrite || o == OfWrite
  {
    var l :| l in Under(k) * Under(o);
    assert l in Behind(s[i][1..]) && l in Behind(s[j][1..]);
    if Holds(s[j], l) {
      OverlapOnlyAfterTimeout(s, i, j, k, l);
    } else if Holds(s[i], l) {
      OverlapOnlyAfterTimeout(s, j, i, o, l);
    } else {
      OnlyTheWriteLockTimesOut(s[i], l);
      assert TimedOut(WriteLock) in s[i][1..];
    }
  }
}
