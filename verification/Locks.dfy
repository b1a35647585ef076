/** Who may wait for whom, and what goes out under which lock: the update lock, the write lock
    and the login lock.

    A `Prog` is what one task does as far as the locks can see: exchanges with the router,
    choices and loops the router or the caller decides, and the regions run under a lock.
    Any number of tasks run together, one step of one task at a time, and any task may be
    cut short by an exception or a cancellation, which releases what it holds. */
module Locks {
  datatype Lock = UpdateLock | WriteLock | LoginLock

  function Rank(l: Lock): nat {
    match l
    case UpdateLock => 1
    case WriteLock => 2
    case LoginLock => 3
  }

  /** What an exchange with the router belongs to. */
  datatype Kind = Plain | OfLogin | OfTurn | OfBatch | OfWrite

  /** The locks an exchange is to go out under: a login's, so that no two logins mix; that of a poll
      or a pass, so that they take turns; in a poll's batch also the write lock; and that for a
      write, which may stop waiting for it. */
  function Under(k: Kind): set<Lock> {
    match k
    case Plain => {}
    case OfLogin => {LoginLock}
    case OfTurn => {UpdateLock}
    case OfBatch => {UpdateLock, WriteLock}
    case OfWrite => {WriteLock}
  }

  datatype Prog =
    | Idle
    | Exchange(kind: Kind)
    | Then(first: Prog, second: Prog)
    | Either(left: Prog, right: Prog)
    | Repeat(body: Prog)
    | With(lock: Lock, body: Prog)             // `async with lock`
    | WithinWait(lock: Lock, body: Prog)       // wait a while for the lock, then go ahead anyway

  /** What a task still has to do, next first; `Release` ends a region it holds the lock of. */
  datatype Frame = Do(prog: Prog) | Release(lock: Lock) | TimedOut(lock: Lock)

  type Task = seq<Frame>
  type State = seq<Task>

  predicate Holds(t: Task, l: Lock) { Release(l) in t }

  predicate Free(s: State, l: Lock) { forall i :: 0 <= i < |s| ==> !Holds(s[i], l) }

  /** One step of a task that is not cut short. */
  ghost predicate Advances(t: Task, u: Task, s: State) {
    t != [] &&
    var rest := t[1..];
    match t[0]
    case Release(_) => u == rest
    case TimedOut(_) => u == rest
    case Do(p) =>
      match p
      case Idle => u == rest
      case Exchange(_) => u == rest
      case Then(a, b) => u == [Do(a), Do(b)] + rest
      case Either(a, b) => u == [Do(a)] + rest || u == [Do(b)] + rest
      case Repeat(b) => u == rest || u == [Do(b), Do(p)] + rest
      case With(l, b) => Free(s, l) && u == [Do(b), Release(l)] + rest
      case WithinWait(l, b) =>
        (Free(s, l) && u == [Do(b), Release(l)] + rest) || u == [Do(b), TimedOut(l)] + rest
  }

  /** An exception or a cancellation passing through work not yet done. */
  ghost predicate CutShort(t: Task, u: Task) { t != [] && t[0].Do? && u == t[1..] }

  ghost predicate Step(s: State, i: int, u: Task) {
    0 <= i < |s| && (Advances(s[i], u, s) || CutShort(s[i], u))
  }

  // ----- ordered acquisition -----------------------------------------------------------

  /** Every lock taken inside ranks above `level` and above those it is taken under. */
  predicate Safe(p: Prog, level: nat) {
    match p
    case Idle => true
    case Exchange(_) => true
    case Then(a, b) => Safe(a, level) && Safe(b, level)
    case Either(a, b) => Safe(a, level) && Safe(b, level)
    case Repeat(b) => Safe(b, level)
    case With(l, b) => Rank(l) > level && Safe(b, Rank(l))
    case WithinWait(l, b) => Rank(l) > level && Safe(b, Rank(l)) && Safe(b, level)
  }

  /** The highest rank a task holds. */
  function Level(t: Task): nat {
    if t == [] then 0
    else
      var below := Level(t[1..]);
      if t[0].Release? && Rank(t[0].lock) > below then Rank(t[0].lock) else below
  }

  ghost predicate Ordered(t: Task) {
    t == [] ||
    (Ordered(t[1..]) &&
     match t[0]
     case Do(p) => Safe(p, Level(t[1..]))
     case Release(l) => Rank(l) > Level(t[1..])
     case TimedOut(_) => true)
  }

  ghost predicate Exclusive(s: State) {
    forall i, j, l :: 0 <= i < |s| && 0 <= j < |s| && Holds(s[i], l) && Holds(s[j], l) ==> i == j
  }

  ghost predicate Sound(s: State) {
    Exclusive(s) && forall i :: 0 <= i < |s| ==> Ordered(s[i])
  }

  lemma {:induction false} HeldIsBelowLevel(t: Task, l: Lock)
    requires Holds(t, l)
    ensures Rank(l) <= Level(t)
  {
    if t[0] != Release(l) {
      assert Release(l) in t[1..];
      HeldIsBelowLevel(t[1..], l);
    }
  }

  lemma OrderedPush(p: Prog, t: Task)
    requires Ordered(t) && Safe(p, Level(t))
    ensures Ordered([Do(p)] + t) && Level([Do(p)] + t) == Level(t)
  {
    assert ([Do(p)] + t)[1..] == t;
  }

  lemma OrderedMark(f: Frame, t: Task)
    requires Ordered(t) && !f.Do? && (f.Release? ==> Rank(f.lock) > Level(t))
    ensures Ordered([f] + t)
    ensures Level([f] + t) == if f.Release? then Rank(f.lock) else Level(t)
  {
    assert ([f] + t)[1..] == t;
  }

  lemma StepKeepsOrder(t: Task, u: Task, s: State)
    requires Ordered(t) && (Advances(t, u, s) || CutShort(t, u))
    ensures Ordered(u)
  {
    var rest := t[1..];
    if Advances(t, u, s) && t[0].Do? {
      match t[0].prog
      case Idle => case Exchange(_) =>
      case Then(a, b) =>
        OrderedPush(b, rest);
        OrderedPush(a, [Do(b)] + rest);
        assert [Do(a)] + ([Do(b)] + rest) == [Do(a), Do(b)] + rest;
      case Either(a, b) =>
        OrderedPush(a, rest);
        OrderedPush(b, rest);
      case Repeat(b) =>
        OrderedPush(t[0].prog, rest);
        OrderedPush(b, [t[0]] + rest);
        assert [Do(b)] + ([t[0]] + rest) == [Do(b), t[0]] + rest;
      case With(l, b) =>
        OrderedMark(Release(l), rest);
        OrderedPush(b, [Release(l)] + rest);
        assert [Do(b)] + ([Release(l)] + rest) == [Do(b), Release(l)] + rest;
      case WithinWait(l, b) =>
        OrderedMark(Release(l), rest);
        OrderedPush(b, [Release(l)] + rest);
        assert [Do(b)] + ([Release(l)] + rest) == [Do(b), Release(l)] + rest;
        OrderedMark(TimedOut(l), rest);
        OrderedPush(b, [TimedOut(l)] + rest);
        assert [Do(b)] + ([TimedOut(l)] + rest) == [Do(b), TimedOut(l)] + rest;
    }
  }

  /** A step takes only a free lock. */
  lemma StepHolds(t: Task, u: Task, s: State, l: Lock)
    requires Advances(t, u, s) || CutShort(t, u)
    requires Holds(u, l)
    ensures Holds(t, l) || Free(s, l)
  {
    assert t == [t[0]] + t[1..];
  }

  lemma StepKeepsSound(s: State, i: int, u: Task)
    requires Sound(s) && Step(s, i, u)
    ensures Sound(s[i := u])
  {
    StepKeepsOrder(s[i], u, s);
    var after := s[i := u];
    forall j, k, l | 0 <= j < |after| && 0 <= k < |after| && Holds(after[j], l) && Holds(after[k], l)
      ensures j == k
    {
      if j == i || k == i { StepHolds(s[i], u, s, l); }
    }
  }

  datatype Move = Move(task: int, next: Task)

  ghost predicate Run(s: State, moves: seq<Move>)
    decreases |moves|
  {
    moves == [] ||
    (Step(s, moves[0].task, moves[0].next) && Run(s[moves[0].task := moves[0].next], moves[1..]))
  }

  ghost function After(s: State, moves: seq<Move>): State
    requires Run(s, moves)
    decreases |moves|
  {
    if moves == [] then s else After(s[moves[0].task := moves[0].next], moves[1..])
  }

  lemma {:induction false} RunKeepsSound(s: State, moves: seq<Move>)
    requires Sound(s) && Run(s, moves)
    ensures Sound(After(s, moves))
    decreases |moves|
  {
    if moves != [] {
      StepKeepsSound(s, moves[0].task, moves[0].next);
      RunKeepsSound(s[moves[0].task := moves[0].next], moves[1..]);
    }
  }

  /** The lock a task is waiting for, when it waits for as long as it takes or for a while. */
  ghost predicate WaitsFor(t: Task, l: Lock) {
    t != [] && t[0].Do? && (t[0].prog.With? || t[0].prog.WithinWait?) && t[0].prog.lock == l
  }

  /** A task that waits for a lock holds only lower ones; in particular not that one. */
  lemma WaitsAreOrdered(t: Task, l: Lock, held: Lock)
    requires Ordered(t) && WaitsFor(t, l) && Holds(t, held)
    ensures Rank(held) < Rank(l)
  {
    assert Release(held) in t[1..];
    HeldIsBelowLevel(t[1..], held);
  }

  /** The task holding the highest lock, or any unfinished task where no lock is held. */
  lemma {:induction false} Foremost(s: State, n: nat) returns (i: nat)
    requires n <= |s| && exists k :: 0 <= k < n && s[k] != []
    ensures i < n && s[i] != []
    ensures forall k :: 0 <= k < n && s[k] != [] ==> Level(s[k]) <= Level(s[i])
    decreases n
  {
    if exists k :: 0 <= k < n - 1 && s[k] != [] {
      i := Foremost(s, n - 1);
      if s[n - 1] != [] && Level(s[n - 1]) > Level(s[i]) { i := n - 1; }
    } else {
      i := n - 1;
    }
  }

  /** No deadlock: while a task is unfinished, some task can go on without being cut short. */
  lemma SomeTaskCanGoOn(s: State) returns (i: nat, u: Task)
    requires Sound(s) && exists k :: 0 <= k < |s| && s[k] != []
    ensures i < |s| && Advances(s[i], u, s)
  {
    i := Foremost(s, |s|);
    var t := s[i];
    var rest := t[1..];
    u := rest;
    if t[0].Do? {
      match t[0].prog
      case Idle => case Exchange(_) => case Repeat(_) =>
      case Then(a, b) => u := [Do(a), Do(b)] + rest;
      case Either(a, b) => u := [Do(a)] + rest;
      case WithinWait(l, b) => u := [Do(b), TimedOut(l)] + rest;
      case With(l, b) =>
        u := [Do(b), Release(l)] + rest;
        forall k | 0 <= k < |s| ensures !Holds(s[k], l) {
          if Holds(s[k], l) { HeldIsBelowLevel(s[k], l); }
        }
    }
  }

  // ----- every exchange under its locks ---------------------------------------------------

  /** Every exchange inside goes out under its locks, or after waiting in vain for the write lock,
      which is the only one that is not waited for as long as it takes. */
  predicate Guarded(p: Prog, behind: set<Lock>) {
    match p
    case Idle => true
    case Exchange(k) => Under(k) <= behind
    case Then(a, b) => Guarded(a, behind) && Guarded(b, behind)
    case Either(a, b) => Guarded(a, behind) && Guarded(b, behind)
    case Repeat(b) => Guarded(b, behind)
    case With(l, b) => Guarded(b, behind + {l})
    case WithinWait(l, b) => l == WriteLock && OnlyWrites(b) && Guarded(b, behind + {l})
  }

  /** No exchange inside but those of writes. */
  predicate OnlyWrites(p: Prog) {
    match p
    case Idle => true
    case Exchange(k) => k == OfWrite
    case Then(a, b) => OnlyWrites(a) && OnlyWrites(b)
    case Either(a, b) => OnlyWrites(a) && OnlyWrites(b)
    case Repeat(b) => OnlyWrites(b)
    case With(l, b) => OnlyWrites(b)
    case WithinWait(l, b) => OnlyWrites(b)
  }

  /** The locks a task holds, or stopped waiting for. */
  function Behind(t: Task): set<Lock> { set l | Release(l) in t || TimedOut(l) in t }

  ghost predicate GuardedTask(t: Task) {
    t == [] ||
    (GuardedTask(t[1..]) &&
     match t[0]
     case Do(p) => Guarded(p, Behind(t[1..])) && (TimedOut(WriteLock) in t[1..] ==> OnlyWrites(p))
     case Release(_) => true
     case TimedOut(l) => l == WriteLock)
  }

  lemma GuardedPush(f: Frame, t: Task)
    requires GuardedTask(t) && (f.TimedOut? ==> f.lock == WriteLock)
    requires f.Do? ==> Guarded(f.prog, Behind(t)) && (TimedOut(WriteLock) in t ==> OnlyWrites(f.prog))
    ensures GuardedTask([f] + t)
    ensures Behind([f] + t) == if f.Do? then Behind(t) else Behind(t) + {f.lock}
  {
    assert ([f] + t)[1..] == t && f in [f] + t;
    assert forall g :: g in [f] + t <==> g == f || g in t;
  }

  lemma GuardedRegion(f: Frame, b: Prog, rest: Task)
    requires GuardedTask(rest) && !f.Do? && Guarded(b, Behind(rest) + {f.lock})
    requires f.TimedOut? ==> f.lock == WriteLock && OnlyWrites(b)
    requires TimedOut(WriteLock) in rest ==> OnlyWrites(b)
    ensures GuardedTask([Do(b), f] + rest)
  {
    GuardedPush(f, rest);
    GuardedPush(Do(b), [f] + rest);
    assert [Do(b)] + ([f] + rest) == [Do(b), f] + rest;
  }

  lemma StepKeepsGuarded(t: Task, u: Task, s: State)
    requires GuardedTask(t) && (Advances(t, u, s) || CutShort(t, u))
    ensures GuardedTask(u)
  {
    var rest := t[1..];
    if Advances(t, u, s) && t[0].Do? {
      match t[0].prog
      case Idle => case Exchange(_) =>
      case Then(a, b) =>
        GuardedPush(Do(b), rest);
        GuardedPush(Do(a), [Do(b)] + rest);
        assert [Do(a)] + ([Do(b)] + rest) == [Do(a), Do(b)] + rest;
      case Either(a, b) =>
        GuardedPush(Do(a), rest);
        GuardedPush(Do(b), rest);
      case Repeat(b) =>
        GuardedPush(t[0], rest);
        GuardedPush(Do(b), [t[0]] + rest);
        assert [Do(b)] + ([t[0]] + rest) == [Do(b), t[0]] + rest;
      case With(l, b) => GuardedRegion(Release(l), b, rest);
      case WithinWait(l, b) =>
        GuardedRegion(Release(l), b, rest);
        GuardedRegion(TimedOut(l), b, rest);
    }
  }

  ghost predicate AllGuarded(s: State) { forall i :: 0 <= i < |s| ==> GuardedTask(s[i]) }

  lemma {:induction false} RunKeepsGuarded(s: State, moves: seq<Move>)
    requires AllGuarded(s) && Run(s, moves)
    ensures AllGuarded(After(s, moves))
    decreases |moves|
  {
    if moves != [] {
      StepKeepsGuarded(s[moves[0].task], moves[0].next, s);
      RunKeepsGuarded(s[moves[0].task := moves[0].next], moves[1..]);
    }
  }

  lemma {:induction false} OnlyTheWriteLockTimesOut(t: Task, l: Lock)
    requires GuardedTask(t) && TimedOut(l) in t
    ensures l == WriteLock
  {
    if t[0] != TimedOut(l) { OnlyTheWriteLockTimesOut(t[1..], l); }
  }

  /** A task about to put an exchange of one kind. */
  predicate Puts(t: Task, k: Kind) { t != [] && t[0] == Do(Exchange(k)) }

  /** An exchange about to go out while another task is inside one of its locks is that of a write
      whose bounded wait ran out. */
  lemma {:induction false} OverlapOnlyAfterTimeout(s: State, i: int, j: int, k: Kind, l: Lock)
    requires Sound(s) && AllGuarded(s) && 0 <= i < |s| && 0 <= j < |s| && i != j
    requires Puts(s[i], k) && l in Under(k) && Holds(s[j], l)
    ensures k == OfWrite && l == WriteLock && TimedOut(WriteLock) in s[i]
  {
    assert l in Behind(s[i][1..]);
    assert !Holds(s[i], l);
    OnlyTheWriteLockTimesOut(s[i], l);
  }
}
