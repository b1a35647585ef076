/** New-message events over whole runs: each message fires exactly once, in the poll that
    first shows it, and the baseline is always the newest moment shown so far. */
module SmsEvents {
  import opened Options
  import opened Sorting
  import opened Sms

  /** Ids are the router's numbers, so none holds the separator of the hash. */
  predicate Plain(m: Message) { '_' !in m.id }

  lemma HashTellsApart(a: Message, b: Message)
    requires Plain(a) && Plain(b) && Hash(a) == Hash(b)
    ensures a == b
  {
    var h := Hash(a);
    assert a.id == h[..|a.id|] && b.id == h[..|b.id|] && h[|a.id|] == '_' && h[|b.id|] == '_';
    assert forall i :: 0 <= i < |a.id| ==> h[i] in a.id;
    assert forall i :: 0 <= i < |b.id| ==> h[i] in b.id;
    assert |a.id| == |b.id|;
    assert a.date == h[|a.id| + 1..] == b.date;
  }

  ghost predicate Distinct<T>(s: seq<T>) { forall i, j :: 0 <= i < j < |s| ==> s[i] != s[j] }

  /** Messages keyed by the moment their date names. */
  ghost predicate WellKeyed(s: seq<Keyed<Message>>, instant: Instant) {
    forall k :: k in s ==> instant(k.item.date) == Some(k.key)
  }

  ghost function At(m: Message, instant: Instant): Option<int> { instant(m.date) }

  lemma {:induction false} DatedHolds(ms: seq<Message>, instant: Instant)
    ensures WellKeyed(Dated(ms, instant), instant)
    ensures forall m :: (m in ms && instant(m.date).Some?) <==> (exists k :: k in Dated(ms, instant) && k.item == m)
  {
    if ms != [] {
      DatedHolds(ms[1..], instant);
      var rest, d := Dated(ms[1..], instant), Dated(ms, instant);
      forall m | m in ms && instant(m.date).Some? ensures exists k :: k in d && k.item == m {
        if m == ms[0] {
          assert d[0].item == m;
        } else {
          assert m in ms[1..];
          var k :| k in rest && k.item == m;
          assert k in d;
        }
      }
    }
  }

  lemma {:induction false} DistinctCounts<T>(s: seq<T>)
    ensures Distinct(s) <==> forall x :: multiset(s)[x] <= 1
  {
    if s != [] {
      DistinctCounts(s[1..]);
      assert s == [s[0]] + s[1..];
      if Distinct(s) {
        assert s[0] !in s[1..];
      } else if Distinct(s[1..]) {
        var i, j :| 0 <= i < j < |s| && s[i] == s[j];
        assert s[j] == s[1..][j - 1];
        assert i == 0;
        assert s[0] in s[1..];
        assert multiset(s)[s[0]] >= 2;
      } else {
        var x :| multiset(s[1..])[x] > 1;
        assert multiset(s)[x] > 1;
      }
    }
  }

  /** The dated messages of a poll, as the tracker goes through them. */
  lemma SortedDated(ms: seq<Message>, instant: Instant)
    ensures var d := Sort(Dated(ms, instant));
            && Ascending(d) && WellKeyed(d, instant)
            && (forall m :: (m in ms && instant(m.date).Some?) <==> (exists k :: k in d && k.item == m))
  {
    var raw := Dated(ms, instant);
    var d := Sort(raw);
    DatedHolds(ms, instant);
    SortSorts(raw);
    assert forall k :: k in d <==> k in raw by {
      forall k ensures k in d <==> k in raw { assert k in multiset(d) <==> k in multiset(raw); }
    }
  }

  lemma {:induction false} NewOnesAre(d: seq<Keyed<Message>>, baseline: int, hashes: set<string>)
    ensures forall k :: k in NewOnes(d, baseline, hashes) <==>
              k in d && (k.key > baseline || (k.key == baseline && Hash(k.item) !in hashes))
    decreases |d|
  {
    hide Hash;
    if d != [] {
      NewOnesAre(d[..|d| - 1], baseline, hashes);
      assert d == d[..|d| - 1] + [d[|d| - 1]];
    }
  }

  lemma {:induction false} NewOnesHolds(d: seq<Keyed<Message>>, baseline: int, hashes: set<string>)
    requires Ascending(d)
    ensures var n := NewOnes(d, baseline, hashes);
            && Ascending(n)
            && (forall k :: k in n <==> k in d && (k.key > baseline || (k.key == baseline && Hash(k.item) !in hashes)))
    decreases |d|
  {
    hide Hash;
    NewOnesAre(d, baseline, hashes);
    if d != [] {
      var front, last := d[..|d| - 1], d[|d| - 1];
      NewOnesHolds(front, baseline, hashes);
      var rest := NewOnes(front, baseline, hashes);
      forall i | 0 <= i < |rest| ensures rest[i].key <= last.key {
        assert rest[i] in front;
      }
    }
  }

  // ----- what the tracker knows ------------------------------------------------------

  /** The tracker holds the newest moment reported and the hashes of what was reported at it. */
  ghost predicate Knows(t: Tracker, known: set<Message>, baseline: int, instant: Instant) {
    && Baseline(t, instant) == Some(baseline)
    && (forall m :: m in known ==> Plain(m) && At(m, instant).Some? && At(m, instant).value <= baseline)
    && t.hashes == (set m | m in known && At(m, instant) == Some(baseline) :: Hash(m))
  }

  lemma KnowsOneMore(t: Tracker, known: set<Message>, baseline: int, k: Keyed<Message>, instant: Instant)
    requires Knows(t, known, baseline, instant)
    requires Plain(k.item) && instant(k.item.date) == Some(k.key) && k.key >= baseline
    ensures k.key > baseline ==>
              Knows(Tracker(Some(k.item.date), {Hash(k.item)}), known + {k.item}, k.key, instant)
    ensures k.key == baseline ==>
              Knows(t.(hashes := t.hashes + {Hash(k.item)}), known + {k.item}, baseline, instant)
  {
    var more := known + {k.item};
    assert At(k.item, instant) == Some(k.key);
    if k.key > baseline {
      assert forall m :: m in more && At(m, instant) == Some(k.key) <==> m == k.item;
      var at := set m | m in more && At(m, instant) == Some(k.key) :: Hash(m);
      assert Hash(k.item) in at;
      assert at == {Hash(k.item)};
    } else {
      var at := set m | m in more && At(m, instant) == Some(baseline) :: Hash(m);
      assert Hash(k.item) in at;
      assert at == t.hashes + {Hash(k.item)};
    }
  }

  ghost function Members(s: seq<Message>): set<Message> { set m | m in s }

  lemma {:induction false} ReportedKnows(t: Tracker, known: set<Message>, baseline: int,
                                         s: seq<Keyed<Message>>, instant: Instant)
    requires Knows(t, known, baseline, instant) && Ascending(s) && WellKeyed(s, instant)
    requires forall k :: k in s ==> Plain(k.item) && k.key >= baseline
    ensures var (after, base) := Reported(t, baseline, s);
            && Knows(after, known + Members(Items(s)), base, instant)
            && base == if s == [] then baseline else s[|s| - 1].key
    decreases |s|
  {
    if s == [] {
      assert known + Members(Items(s)) == known;
    } else {
      var front, last := s[..|s| - 1], s[|s| - 1];
      ReportedKnows(t, known, baseline, front, instant);
      var (before, base) := Reported(t, baseline, front);
      assert last in s;
      assert front != [] ==> s[|s| - 2].key <= last.key;
      KnowsOneMore(before, known + Members(Items(front)), base, last, instant);
      assert Items(s) == Items(front) + [last.item];
      assert known + Members(Items(s)) == known + Members(Items(front)) + {last.item};
    }
  }

  // ----- how often each message fires ---------------------------------------------------

  lemma {:induction false} DatedCounts(ms: seq<Message>, m: Message, instant: Instant)
    ensures multiset(Items(Dated(ms, instant)))[m] == if At(m, instant).Some? then multiset(ms)[m] else 0
  {
    hide Items;
    if ms == [] {
      assert Items(Dated(ms, instant)) == [] by { NoItems(Dated(ms, instant)); }
    } else {
      DatedCounts(ms[1..], m, instant);
      assert ms == [ms[0]] + ms[1..];
      var at := instant(ms[0].date);
      if at.Some? { ItemsPrepend(Keyed(at.value, ms[0]), Dated(ms[1..], instant)); }
    }
  }

  lemma NoItems(d: seq<Keyed<Message>>)
    requires d == []
    ensures Items(d) == []
  {
  }

  lemma ItemsAppend(d: seq<Keyed<Message>>, x: Keyed<Message>)
    ensures multiset(Items(d + [x])) == multiset(Items(d)) + multiset{x.item}
  {
    assert Items(d + [x]) == Items(d) + [x.item];
  }

  predicate IsNew(m: Message, baseline: int, hashes: set<string>, instant: Instant) {
    var at := instant(m.date);
    at.Some? && (at.value > baseline || (at.value == baseline && Hash(m) !in hashes))
  }

  lemma {:induction false} NewOnesCounts(
    d: seq<Keyed<Message>>, baseline: int, hashes: set<string>, m: Message, instant: Instant)
    requires WellKeyed(d, instant)
    ensures multiset(Items(NewOnes(d, baseline, hashes)))[m]
            == if IsNew(m, baseline, hashes, instant) then multiset(Items(d))[m] else 0
    decreases |d|
  {
    hide Items, Hash;
    if d == [] {
      NoItems(d);
    } else {
      var front, last := d[..|d| - 1], d[|d| - 1];
      assert d == front + [last] && last in d;
      NewOnesCounts(front, baseline, hashes, m, instant);
      ItemsAppend(front, last);
      ItemsAppend(NewOnes(front, baseline, hashes), last);
    }
  }

  /** A poll after the first fires each unreported dated message, no older than the baseline, as
      often as it lists it, and no other. */
  ghost predicate News(m: Message, known: set<Message>, baseline: int, instant: Instant) {
    At(m, instant).Some? && At(m, instant).value >= baseline && m !in known
  }

  lemma FiredCounts(t: Tracker, known: set<Message>, baseline: int, ms: seq<Message>, m: Message, instant: Instant)
    requires Knows(t, known, baseline, instant)
    requires forall o :: o in ms ==> Plain(o)
    ensures multiset(Check(t, ms, instant).1)[m] == if News(m, known, baseline, instant) then multiset(ms)[m] else 0
  {
    hide Items, Hash, Sort, Dated;
    var d := Sort(Dated(ms, instant));
    SortedDated(ms, instant);
    SortItems(Dated(ms, instant));
    DatedCounts(ms, m, instant);
    if d == [] {
      NoItems(d);
      assert multiset(Check(t, ms, instant).1)[m] == 0;
    } else {
      NewOnesCounts(d, baseline, t.hashes, m, instant);
      if m in ms && instant(m.date).Some? {
        assert forall k :: k in d ==> k.item in ms by {
          forall k | k in d ensures k.item in ms { assert k.item == k.item; }
        }
        UnseenMeansUnknown(t, known, baseline, d, ms, instant);
        var k :| k in d && k.item == m;
        assert IsNew(m, baseline, t.hashes, instant) <==> News(m, known, baseline, instant);
      }
    }
  }

  /** So nothing fires twice in a poll exactly when it lists nothing twice that is news. */
  lemma FiresOnceExactly(t: Tracker, known: set<Message>, baseline: int, ms: seq<Message>, instant: Instant)
    requires Knows(t, known, baseline, instant)
    requires forall o :: o in ms ==> Plain(o)
    ensures Distinct(Check(t, ms, instant).1)
            <==> forall m :: m in ms && News(m, known, baseline, instant) ==> multiset(ms)[m] == 1
  {
    hide Check, News;
    var fired := Check(t, ms, instant).1;
    DistinctCounts(fired);
    forall m ensures multiset(fired)[m] == if News(m, known, baseline, instant) then multiset(ms)[m] else 0 {
      FiredCounts(t, known, baseline, ms, m, instant);
    }
    assert forall m :: m in ms <==> multiset(ms)[m] >= 1;
  }

  /** One poll of an established tracker: exactly the dated messages no older than the
      baseline and not reported before fire, and the baseline becomes the newest moment. */
  lemma CheckFires(t: Tracker, known: set<Message>, baseline: int, ms: seq<Message>, instant: Instant)
    returns (base: int)
    requires Knows(t, known, baseline, instant)
    requires forall m :: m in ms ==> Plain(m)
    ensures var (after, fired) := Check(t, ms, instant);
            && Knows(after, known + Members(fired), base, instant)
            && (forall m :: m in fired <==>
                  m in ms && At(m, instant).Some? && At(m, instant).value >= baseline && m !in known)
    ensures base >= baseline && NewestOf(ms, baseline, base, instant)
  {
    var d := Sort(Dated(ms, instant));
    SortedDated(ms, instant);
    base := baseline;
    if d == [] {
      assert known + Members([]) == known;
      NoneDated(ms, instant);
    } else {
      var n := NewOnes(d, baseline, t.hashes);
      NewOnesHolds(d, baseline, t.hashes);
      UnseenMeansUnknown(t, known, baseline, d, ms, instant);
      assert forall k :: k in n ==> k.item in ms by {
        forall k | k in n ensures k.item in ms { assert k in d && k.item == k.item; }
      }
      ReportedKnows(t, known, baseline, n, instant);
      base := Reported(t, baseline, n).1;
      FiredAre(n, d, ms, known, baseline, instant);
      BaselineNewest(n, d, ms, baseline, base, t.hashes, instant);
    }
  }

  /** `base` is the newest moment among some dated messages and an older baseline. */
  ghost predicate NewestOf(ms: seq<Message>, baseline: int, base: int, instant: Instant) {
    && (forall m :: m in ms && At(m, instant).Some? ==> At(m, instant).value <= base)
    && (base == baseline || exists m :: m in ms && At(m, instant) == Some(base))
  }

  lemma NoneDated(ms: seq<Message>, instant: Instant)
    requires Sort(Dated(ms, instant)) == []
    ensures forall m :: m in ms ==> At(m, instant).None?
  {
    SortedDated(ms, instant);
  }

  /** At the baseline, a hash is held exactly for the messages reported. */
  lemma UnseenMeansUnknown(t: Tracker, known: set<Message>, baseline: int, d: seq<Keyed<Message>>,
                           ms: seq<Message>, instant: Instant)
    requires Knows(t, known, baseline, instant) && WellKeyed(d, instant)
    requires forall m :: m in ms ==> Plain(m)
    requires forall k :: k in d ==> k.item in ms
    ensures forall k :: k in d ==>
              ((k.key > baseline || (k.key == baseline && Hash(k.item) !in t.hashes))
               <==> (k.key >= baseline && k.item !in known))
  {
    forall k | k in d
      ensures (k.key > baseline || (k.key == baseline && Hash(k.item) !in t.hashes))
              <==> (k.key >= baseline && k.item !in known)
    {
      assert At(k.item, instant) == Some(k.key);
      if k.key == baseline && Hash(k.item) in t.hashes {
        var m :| m in known && At(m, instant) == Some(baseline) && Hash(m) == Hash(k.item);
        HashTellsApart(m, k.item);
      }
    }
  }

  lemma FiredAre(n: seq<Keyed<Message>>, d: seq<Keyed<Message>>, ms: seq<Message>, known: set<Message>,
                 baseline: int, instant: Instant)
    requires WellKeyed(d, instant)
    requires forall k :: k in n <==> k in d && k.key >= baseline && k.item !in known
    requires forall m :: (m in ms && instant(m.date).Some?) <==> (exists k :: k in d && k.item == m)
    ensures forall m :: m in Items(n) <==>
              m in ms && At(m, instant).Some? && At(m, instant).value >= baseline && m !in known
  {
    forall m ensures m in Items(n) <==>
              m in ms && At(m, instant).Some? && At(m, instant).value >= baseline && m !in known
    {
      if m in Items(n) {
        var i :| 0 <= i < |n| && Items(n)[i] == m;
        assert n[i] in n;
      }
      if m in ms && At(m, instant).Some? && At(m, instant).value >= baseline && m !in known {
        var k :| k in d && k.item == m;
        assert k in n;
        var i :| 0 <= i < |n| && n[i] == k;
        assert Items(n)[i] == m;
      }
    }
  }

  lemma BaselineNewest(n: seq<Keyed<Message>>, d: seq<Keyed<Message>>, ms: seq<Message>,
                       baseline: int, base: int, hashes: set<string>, instant: Instant)
    requires WellKeyed(d, instant) && Ascending(n)
    requires forall k :: k in n <==> k in d && (k.key > baseline || (k.key == baseline && Hash(k.item) !in hashes))
    requires forall m :: (m in ms && instant(m.date).Some?) <==> (exists k :: k in d && k.item == m)
    requires base == if n == [] then baseline else n[|n| - 1].key
    ensures base >= baseline && NewestOf(ms, baseline, base, instant)
  {
    if n != [] {
      var last := n[|n| - 1];
      assert last in n && last in d;
      assert last.item in ms && At(last.item, instant) == Some(base);
    }
    forall m | m in ms && At(m, instant).Some? ensures At(m, instant).value <= base {
      var k :| k in d && k.item == m;
      if k.key > baseline {
        assert k in n;
        var i :| 0 <= i < |n| && n[i] == k;
      }
    }
  }

  // ----- whole runs --------------------------------------------------------------------

  /** The tracker, and everything reported to it or by it, after some polls. */
  ghost function Followed(polls: seq<seq<Message>>, instant: Instant): (Tracker, set<Message>) {
    if polls == [] then (Tracker(None, {}), {})
    else
      var (t, known) := Followed(polls[..|polls| - 1], instant);
      var ms := polls[|polls| - 1];
      var (after, fired) := Check(t, ms, instant);
      (after, known + if Baseline(t, instant).None? then Opening(ms, instant) else Members(fired))
  }

  /** What the first poll with a dated message takes as already reported: its newest. */
  ghost function Opening(ms: seq<Message>, instant: Instant): set<Message> {
    set m | m in ms && At(m, instant).Some?
            && (forall o :: o in ms && At(o, instant).Some? ==> At(o, instant).value <= At(m, instant).value)
  }

  function Events(polls: seq<seq<Message>>, instant: Instant): seq<Message> {
    if polls == [] then []
    else Events(polls[..|polls| - 1], instant) + EventsOf(polls[..|polls| - 1], polls[|polls| - 1], instant)
  }

  function Tracked(polls: seq<seq<Message>>, instant: Instant): Tracker {
    if polls == [] then Tracker(None, {})
    else Check(Tracked(polls[..|polls| - 1], instant), polls[|polls| - 1], instant).0
  }

  /** What the poll after some polls fires. */
  function EventsOf(polls: seq<seq<Message>>, ms: seq<Message>, instant: Instant): seq<Message> {
    Check(Tracked(polls, instant), ms, instant).1
  }

  ghost predicate PlainPolls(polls: seq<seq<Message>>) {
    forall ms, m :: ms in polls && m in ms ==> Plain(m)
  }

  /** The newest moment among every message shown, or nothing where none is dated. */
  ghost predicate Newest(polls: seq<seq<Message>>, at: Option<int>, instant: Instant) {
    && (forall ms, m :: ms in polls && m in ms && At(m, instant).Some? ==> at.Some? && At(m, instant).value <= at.value)
    && (at.Some? ==> exists ms, m :: ms in polls && m in ms && At(m, instant) == at)
  }

  /** The last of the dated messages in order is the newest of them. */
  lemma LastIsNewest(ms: seq<Message>, instant: Instant)
    requires Sort(Dated(ms, instant)) != []
    ensures var d := Sort(Dated(ms, instant));
            var base := d[|d| - 1].key;
            && (exists m :: m in ms && At(m, instant) == Some(base))
            && (forall m :: m in ms && At(m, instant).Some? ==> At(m, instant).value <= base)
  {
    hide Sort, Dated;
    var d := Sort(Dated(ms, instant));
    SortedDated(ms, instant);
    var latest := d[|d| - 1];
    assert latest in d;
    assert latest.item in ms && At(latest.item, instant) == Some(latest.key);
    forall m | m in ms && At(m, instant).Some? ensures At(m, instant).value <= latest.key {
      var k :| k in d && k.item == m;
      var i :| 0 <= i < |d| && d[i] == k;
    }
  }

  lemma OpeningIsNewest(ms: seq<Message>, base: int, instant: Instant)
    requires exists m :: m in ms && At(m, instant) == Some(base)
    requires forall m :: m in ms && At(m, instant).Some? ==> At(m, instant).value <= base
    ensures forall m :: m in Opening(ms, instant) <==> m in ms && At(m, instant) == Some(base)
  {
  }

  lemma OpeningHashes(ms: seq<Message>, base: int, instant: Instant)
    ensures HashesAt(Sort(Dated(ms, instant)), base)
            == set m | m in ms && At(m, instant) == Some(base) :: Hash(m)
  {
    hide Hash;
    var d := Sort(Dated(ms, instant));
    SortedDated(ms, instant);
    var held := set m | m in ms && At(m, instant) == Some(base) :: Hash(m);
    forall h | h in HashesAt(d, base) ensures h in held {
      var k :| k in d && k.key == base && h == Hash(k.item);
      assert k.item in ms && At(k.item, instant) == Some(base);
    }
    forall h | h in held ensures h in HashesAt(d, base) {
      var m :| m in ms && At(m, instant) == Some(base) && Hash(m) == h;
      var k :| k in d && k.item == m;
      assert k.key == base;
    }
  }

  lemma OpeningKnows(t: Tracker, ms: seq<Message>, instant: Instant) returns (base: int)
    requires Baseline(t, instant).None? && Sort(Dated(ms, instant)) != []
    requires forall m :: m in ms ==> Plain(m)
    ensures Check(t, ms, instant).1 == []
    ensures Knows(Check(t, ms, instant).0, Opening(ms, instant), base, instant)
    ensures (exists m :: m in ms && At(m, instant) == Some(base))
            && (forall m :: m in ms && At(m, instant).Some? ==> At(m, instant).value <= base)
  {
    hide Hash, HashesAt;
    var d := Sort(Dated(ms, instant));
    base := d[|d| - 1].key;
    LastIsNewest(ms, instant);
    OpeningIsNewest(ms, base, instant);
    OpeningHashes(ms, base, instant);
    SortedDated(ms, instant);
    assert d[|d| - 1] in d;
    hide Opening, Sort, Dated;
    assert Check(t, ms, instant).0 == Tracker(Some(d[|d| - 1].item.date), HashesAt(d, base));
  }

  /** After any polls the tracker knows exactly what it reported, and its baseline is the
      newest moment any poll has shown. */
  lemma {:induction false} FollowedKnows(polls: seq<seq<Message>>, instant: Instant)
    requires PlainPolls(polls)
    ensures var (t, known) := Followed(polls, instant);
            && t == Tracked(polls, instant)
            && Newest(polls, Baseline(t, instant), instant)
            && (if Baseline(t, instant).Some? then Knows(t, known, Baseline(t, instant).value, instant)
                else t == Tracker(None, {}) && known == {})
    decreases |polls|
  {
    hide Sort, Dated, Hash;
    if polls != [] {
      var front, ms := polls[..|polls| - 1], polls[|polls| - 1];
      FollowedKnows(front, instant);
      var (t, known) := Followed(front, instant);
      assert polls == front + [ms];
      if Baseline(t, instant).Some? {
        var base := CheckFires(t, known, Baseline(t, instant).value, ms, instant);
      } else if Sort(Dated(ms, instant)) == [] {
        NoneDated(ms, instant);
        assert Opening(ms, instant) == {};
      } else {
        var base := OpeningKnows(t, ms, instant);
        assert known + Opening(ms, instant) == Opening(ms, instant);
      }
    }
  }

  lemma DistinctConcat<T>(a: seq<T>, b: seq<T>)
    requires Distinct(a) && Distinct(b) && forall x :: x in a ==> x !in b
    ensures Distinct(a + b)
  {
    forall i, j | 0 <= i < j < |a + b| ensures (a + b)[i] != (a + b)[j] {
      if i < |a| <= j { assert a[i] in a && b[j - |a|] in b; }
    }
  }

  /** A poll lists something twice that is news to the tracker. */
  ghost predicate RepeatsNews(polls: seq<seq<Message>>, ms: seq<Message>, instant: Instant) {
    var (t, known) := Followed(polls, instant);
    var baseline := Baseline(t, instant);
    baseline.Some? && exists m :: m in ms && News(m, known, baseline.value, instant) && multiset(ms)[m] > 1
  }

  /** One more poll fires nothing reported before, and what it fires is reported after. */
  lemma EventsAreNew(polls: seq<seq<Message>>, ms: seq<Message>, instant: Instant)
    requires PlainPolls(polls) && forall m :: m in ms ==> Plain(m)
    ensures Distinct(EventsOf(polls, ms, instant)) <==> !RepeatsNews(polls, ms, instant)
    ensures forall m :: m in EventsOf(polls, ms, instant) ==>
              m !in Followed(polls, instant).1 && m in Followed(polls + [ms], instant).1
    ensures Followed(polls, instant).1 <= Followed(polls + [ms], instant).1
  {
    FollowedKnows(polls, instant);
    assert (polls + [ms])[..|polls|] == polls;
    var (t, known) := Followed(polls, instant);
    if Baseline(t, instant).Some? {
      var base := CheckFires(t, known, Baseline(t, instant).value, ms, instant);
      FiresOnceExactly(t, known, Baseline(t, instant).value, ms, instant);
      assert forall m :: m in ms <==> multiset(ms)[m] >= 1;
    } else if Sort(Dated(ms, instant)) != [] {
      var base := OpeningKnows(t, ms, instant);
    }
  }

  lemma DistinctParts<T>(a: seq<T>, b: seq<T>)
    requires Distinct(a + b)
    ensures Distinct(a) && Distinct(b)
  {
    forall i, j | 0 <= i < j < |a| ensures a[i] != a[j] { assert (a + b)[i] == a[i] && (a + b)[j] == a[j]; }
    forall i, j | 0 <= i < j < |b| ensures b[i] != b[j] {
      assert (a + b)[|a| + i] == b[i] && (a + b)[|a| + j] == b[j];
    }
  }

  /** Over any polls no message fires twice exactly when no poll lists news twice. */
  lemma {:induction false} NoneFiresTwiceExactly(polls: seq<seq<Message>>, instant: Instant)
    requires PlainPolls(polls)
    ensures Distinct(Events(polls, instant))
            <==> forall k :: 0 <= k < |polls| ==> !RepeatsNews(polls[..k], polls[k], instant)
    ensures forall m :: m in Events(polls, instant) ==> m in Followed(polls, instant).1
    decreases |polls|
  {
    hide EventsOf, Followed, RepeatsNews, Distinct;
    if polls == [] {
      assert Distinct(Events(polls, instant)) by { NothingRepeats(Events(polls, instant)); }
    } else {
      var front, ms := polls[..|polls| - 1], polls[|polls| - 1];
      NoneFiresTwiceExactly(front, instant);
      EventsAreNew(front, ms, instant);
      assert polls == front + [ms];
      var a, b := Events(front, instant), EventsOf(front, ms, instant);
      if Distinct(a + b) {
        DistinctParts(a, b);
      } else if Distinct(a) && Distinct(b) {
        DistinctConcat(a, b);
      }
      assert forall k :: 0 <= k < |front| ==> polls[..k] == front[..k] && polls[k] == front[k];
    }
  }

  lemma NothingRepeats<T>(s: seq<T>)
    requires s == []
    ensures Distinct(s)
  {
  }

  lemma RepeatedIsListedTwice(polls: seq<seq<Message>>, ms: seq<Message>, instant: Instant)
    requires RepeatsNews(polls, ms, instant)
    ensures !Distinct(ms)
  {
    DistinctCounts(ms);
  }

  /** So over polls each free of duplicates no message fires twice. */
  lemma {:induction false} NoneFiresTwice(polls: seq<seq<Message>>, instant: Instant)
    requires PlainPolls(polls) && forall ms :: ms in polls ==> Distinct(ms)
    ensures Distinct(Events(polls, instant))
  {
    NoneFiresTwiceExactly(polls, instant);
    forall k | 0 <= k < |polls| ensures !RepeatsNews(polls[..k], polls[k], instant) {
      if RepeatsNews(polls[..k], polls[k], instant) { RepeatedIsListedTwice(polls[..k], polls[k], instant); }
    }
  }

  /** Once a baseline exists, a poll fires a message exactly when it shows it dated, no
      older than the newest moment shown before, and not reported before. */
  lemma FiresWhenShown(polls: seq<seq<Message>>, ms: seq<Message>, m: Message, instant: Instant)
    requires PlainPolls(polls) && forall o :: o in ms ==> Plain(o)
    requires Baseline(Tracked(polls, instant), instant).Some?
    ensures var newest := Baseline(Tracked(polls, instant), instant).value;
            m in EventsOf(polls, ms, instant) <==>
              m in ms && At(m, instant).Some? && At(m, instant).value >= newest && m !in Followed(polls, instant).1
  {
    FollowedKnows(polls, instant);
    var (t, known) := Followed(polls, instant);
    var base := CheckFires(t, known, Baseline(t, instant).value, ms, instant);
  }

  /** The baseline never goes back. */
  lemma BaselineNeverFalls(polls: seq<seq<Message>>, ms: seq<Message>, instant: Instant)
    requires PlainPolls(polls + [ms])
    ensures var before, after := Baseline(Tracked(polls, instant), instant),
            Baseline(Tracked(polls + [ms], instant), instant);
            before.Some? ==> after.Some? && after.value >= before.value
  {
    FollowedKnows(polls + [ms], instant);
    assert (polls + [ms])[..|polls|] == polls;
    FollowedKnows(polls, instant);
    var before := Baseline(Tracked(polls, instant), instant);
    if before.Some? {
      var o, m :| o in polls && m in o && At(m, instant) == before;
      assert o in polls + [ms];
    }
  }

  /** Why the polls must be free of duplicates: a message listed twice in one poll, newer
      than the baseline, fires twice. */
  lemma ListedTwiceFiresTwice() returns (polls: seq<seq<Message>>, instant: Instant)
    ensures PlainPolls(polls) && !Distinct(Events(polls, instant))
  {
    var shown, twice := Message("1", "a"), Message("2", "bb");
    instant := (date: string) => Some(|date|);
    polls := [[shown], [twice, twice]];
    assert polls[..1] == [[shown]];
    FollowedKnows([[shown]], instant);
    assert [shown] in [[shown]] && shown in [shown] && At(shown, instant) == Some(1) && At(twice, instant) == Some(2);
    hide Followed;
    var (t, known) := Followed([[shown]], instant);
    assert Baseline(t, instant) == Some(1);
    assert twice in [twice, twice] && News(twice, known, 1, instant);
    assert RepeatsNews(polls[..1], polls[1], instant);
    NoneFiresTwiceExactly(polls, instant);
  }
}
