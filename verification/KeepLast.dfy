/** The SMS services: which messages "keep the last few" deletes, and how far a send to
    several numbers goes. */
module KeepLast {
  import opened Options
  import opened Sorting

  /** A listed message; `instant` is the moment its date names, where it names one. */
  datatype Message = Message(id: Option<nat>, instant: Option<int>, content: string)

  /** Messages with a usable date, keyed so that the newest sorts first. */
  function Dated(ms: seq<Message>): seq<Keyed<Message>> {
    if ms == [] then []
    else if ms[0].instant.Some? then [Keyed(-ms[0].instant.value, ms[0])] + Dated(ms[1..])
    else Dated(ms[1..])
  }

  function IdOf(m: Message): int { if m.id.Some? then m.id.value else 0 }

  /** The others, keyed so that the highest id sorts first. */
  function Undated(ms: seq<Message>): seq<Keyed<Message>> {
    if ms == [] then []
    else if ms[0].instant.None? then [Keyed(-IdOf(ms[0]), ms[0])] + Undated(ms[1..])
    else Undated(ms[1..])
  }

  function Ordered(ms: seq<Message>): seq<Message> {
    Items(Sort(Dated(ms))) + Items(Sort(Undated(ms)))
  }

  function Cut(ms: seq<Message>, keepLast: nat): nat {
    if keepLast < |Ordered(ms)| then keepLast else |Ordered(ms)|
  }

  function BeyondTheNewest(ms: seq<Message>, keepLast: nat): seq<Message> {
    Ordered(ms)[Cut(ms, keepLast)..]
  }

  function Kept(ms: seq<Message>, keepLast: nat): seq<Message> {
    Ordered(ms)[..Cut(ms, keepLast)]
  }

  /** `a` outlives `b`: a dated message is never older than one it outlives, and an
      undated one outlives only undated ones of no higher id. */
  ghost predicate Outlives(a: Message, b: Message) {
    if b.instant.Some? then a.instant.Some? && a.instant.value >= b.instant.value
    else a.instant.Some? || (b.id.Some? && b.id.value > 0 ==> a.id.Some? && a.id.value >= b.id.value)
  }

  lemma {:induction false} PartsKeyed(ms: seq<Message>)
    ensures forall k :: k in Dated(ms) ==> k.item.instant.Some? && k.key == -k.item.instant.value
    ensures forall k :: k in Undated(ms) ==> k.item.instant.None? && k.key == -IdOf(k.item)
  {
    if ms != [] { PartsKeyed(ms[1..]); }
  }

  lemma {:induction false} PartsPartition(ms: seq<Message>)
    ensures multiset(Items(Dated(ms))) + multiset(Items(Undated(ms))) == multiset(ms)
  {
    if ms != [] {
      hide Items;
      PartsPartition(ms[1..]);
      assert ms == [ms[0]] + ms[1..];
      if ms[0].instant.Some? {
        ItemsPrepend(Keyed(-ms[0].instant.value, ms[0]), Dated(ms[1..]));
      } else {
        ItemsPrepend(Keyed(-IdOf(ms[0]), ms[0]), Undated(ms[1..]));
      }
    }
  }

  lemma OrderedPermutes(ms: seq<Message>)
    ensures multiset(Ordered(ms)) == multiset(ms) && |Ordered(ms)| == |ms|
  {
    PartsPartition(ms);
    SortItems(Dated(ms));
    SortItems(Undated(ms));
    assert |multiset(Ordered(ms))| == |multiset(ms)|;
  }

  /** Nothing is lost: what is kept and what is deleted together are the messages given,
      and exactly as many are kept as asked for, or all of them. */
  lemma KeptAndDeleted(ms: seq<Message>, keepLast: nat)
    ensures multiset(Kept(ms, keepLast)) + multiset(BeyondTheNewest(ms, keepLast)) == multiset(ms)
    ensures |Kept(ms, keepLast)| == if keepLast < |ms| then keepLast else |ms|
  {
    OrderedPermutes(ms);
    hide Ordered;
    assert Ordered(ms) == Kept(ms, keepLast) + BeyondTheNewest(ms, keepLast);
  }

  lemma InOrder(ms: seq<Message>, i: int, j: int)
    requires 0 <= i < j < |Ordered(ms)|
    ensures Outlives(Ordered(ms)[i], Ordered(ms)[j])
  {
    PartsKeyed(ms);
    var d, u := Sort(Dated(ms)), Sort(Undated(ms));
    SortSorts(Dated(ms));
    SortSorts(Undated(ms));
    SameMembers(d, Dated(ms));
    SameMembers(u, Undated(ms));
    if j < |d| {
      assert d[i].key <= d[j].key && d[i] in d && d[j] in d;
    } else if i >= |d| {
      assert u[i - |d|].key <= u[j - |d|].key && u[i - |d|] in u && u[j - |d|] in u;
    } else {
      assert d[i] in d && u[j - |d|] in u;
    }
  }

  lemma SameMembers<T>(a: seq<T>, b: seq<T>)
    requires multiset(a) == multiset(b)
    ensures forall x :: x in a ==> x in b
  {
    forall x | x in a ensures x in b {
      assert x in multiset(a);
    }
  }

  /** No dated message goes while an older one or an undated one stays. */
  lemma NothingNewerDeleted(ms: seq<Message>, keepLast: nat, kept: Message, deleted: Message)
    requires kept in Kept(ms, keepLast) && deleted in BeyondTheNewest(ms, keepLast)
    ensures Outlives(kept, deleted)
  {
    var i :| 0 <= i < |Kept(ms, keepLast)| && Kept(ms, keepLast)[i] == kept;
    var j :| 0 <= j < |BeyondTheNewest(ms, keepLast)| && BeyondTheNewest(ms, keepLast)[j] == deleted;
    InOrder(ms, i, Cut(ms, keepLast) + j);
  }

  /** The ids among some messages, in order. */
  function Ids(ms: seq<Message>): seq<nat> {
    if ms == [] then []
    else
      var last := ms[|ms| - 1];
      Ids(ms[..|ms| - 1]) + if last.id.Some? then [last.id.value] else []
  }

  /** Taking ids goes through a list in order, whatever way the list is cut. */
  lemma {:induction false} IdsInParts(a: seq<Message>, b: seq<Message>)
    ensures Ids(a + b) == Ids(a) + Ids(b)
  {
    if b == [] {
      assert a + b == a;
    } else {
      var front, last, all := b[..|b| - 1], b[|b| - 1], a + b;
      IdsInParts(a, front);
      assert all[..|all| - 1] == a + front && all[|all| - 1] == last;
      var more := if last.id.Some? then [last.id.value] else [];
      assert Ids(all) == Ids(a + front) + more && Ids(b) == Ids(front) + more;
      hide Ids;
    }
  }

  lemma {:induction false} IdOfOne(m: Message)
    ensures Ids([m]) == if m.id.Some? then [m.id.value] else []
  {
    assert [m][..0] == [];
  }

  lemma {:induction false} IdsAreOfMessages(ms: seq<Message>)
    ensures forall id :: id in Ids(ms) <==> exists m :: m in ms && m.id == Some(id)
  {
    if ms != [] {
      var front, last := ms[..|ms| - 1], ms[|ms| - 1];
      IdsAreOfMessages(front);
      assert forall m :: m in ms <==> m in front || m == last;
    }
  }

  /** Where no two messages share an id, no message that is kept is deleted; and every message
      beyond them that has an id is. */
  lemma OnlyTheRestIsDeleted(ms: seq<Message>, keepLast: nat)
    requires forall i, j :: 0 <= i < j < |ms| && ms[i].id.Some? ==> ms[i].id != ms[j].id
    ensures forall m :: m in ms && m.id.Some? ==>
              (m.id.value in Ids(BeyondTheNewest(ms, keepLast)) <==> m !in Kept(ms, keepLast))
  {
    IdsAreOfMessages(BeyondTheNewest(ms, keepLast));
    KeptAndDeleted(ms, keepLast);
    hide Kept, BeyondTheNewest, Ids;
    var kept, gone := Kept(ms, keepLast), BeyondTheNewest(ms, keepLast);
    forall m | m in ms && m.id.Some? ensures m.id.value in Ids(gone) <==> m !in kept {
      OneHolder(ms, m);
      assert m in multiset(ms) && multiset(ms)[m] == multiset(kept)[m] + multiset(gone)[m];
      if m in kept {
        assert m in multiset(kept);
        forall n | n in gone ensures n.id != m.id {
          assert n in multiset(gone) && n in multiset(ms);
          assert n in ms;
        }
      } else {
        assert m in multiset(gone);
      }
    }
  }

  lemma {:induction false} OneHolder(ms: seq<Message>, m: Message)
    requires forall i, j :: 0 <= i < j < |ms| && ms[i].id.Some? ==> ms[i].id != ms[j].id
    requires m in ms && m.id.Some?
    ensures multiset(ms)[m] == 1 && forall n :: n in ms && n.id == m.id ==> n == m
  {
    var i :| 0 <= i < |ms| && ms[i] == m;
    var a, b := ms[..i], ms[i + 1..];
    assert ms == a + [m] + b;
    assert multiset(a)[m] == 0 && multiset(b)[m] == 0;
  }

  /** The delete service past its first branch: the targets of the one command it sends,
      if it sends one, and how many messages it had to skip. */
  method DeleteBeyond(ms: seq<Message>, keepLast: nat) returns (command: Option<seq<nat>>, skipped: nat)
    ensures command.Some? ==> command.value != []
    ensures (if command.Some? then command.value else []) == Ids(BeyondTheNewest(ms, keepLast))
    ensures skipped == |BeyondTheNewest(ms, keepLast)| - |Ids(BeyondTheNewest(ms, keepLast))|
  {
    var toDelete := BeyondTheNewest(ms, keepLast);
    var ids := [];
    for i := 0 to |toDelete|
      invariant ids == Ids(toDelete[..i]) && |ids| <= i
    {
      assert toDelete[..i + 1][..i] == toDelete[..i];
      if toDelete[i].id.Some? {
        ids := ids + [toDelete[i].id.value];
      }
    }
    assert toDelete[..|toDelete|] == toDelete;
    skipped := |toDelete| - |ids|;
    command := if ids != [] then Some(ids) else None;
  }

  /** A send to several numbers stops at the first that fails and names the ones reached. */
  method SendToEach(targets: seq<string>, accepted: nat -> bool)
    returns (sent: seq<string>, attempts: nat, failed: bool)
    ensures |sent| <= attempts <= |targets| && sent == targets[..|sent|]
    ensures forall i :: 0 <= i < |sent| ==> accepted(i)
    ensures if failed then attempts == |sent| + 1 && !accepted(|sent|) else attempts == |sent| == |targets|
  {
    sent, attempts, failed := [], 0, false;
    while attempts < |targets|
      invariant attempts == |sent| <= |targets| && sent == targets[..|sent|] && !failed
      invariant forall i :: 0 <= i < |sent| ==> accepted(i)
      decreases |targets| - attempts
    {
      attempts := attempts + 1;
      if !accepted(attempts - 1) {
        failed := true;
        return;
      }
      sent := sent + [targets[attempts - 1]];
    }
  }
}
