/** Python's `list.sort(key=...)`: ascending by the key, ties left in the order they came. */
module Sorting {
  datatype Keyed<+T> = Keyed(key: int, item: T)

  function Insert<T>(x: Keyed<T>, s: seq<Keyed<T>>): seq<Keyed<T>> {
    if s == [] || x.key <= s[0].key then [x] + s else [s[0]] + Insert(x, s[1..])
  }

  function Sort<T>(s: seq<Keyed<T>>): seq<Keyed<T>> {
    if s == [] then [] else Insert(s[0], Sort(s[1..]))
  }

  ghost predicate Ascending<T>(s: seq<Keyed<T>>) {
    forall i, j :: 0 <= i < j < |s| ==> s[i].key <= s[j].key
  }

  /** The items of one key, in order. */
  ghost function OfKey<T>(s: seq<Keyed<T>>, k: int): seq<Keyed<T>> {
    if s == [] then [] else (if s[0].key == k then [s[0]] else []) + OfKey(s[1..], k)
  }

  lemma {:induction false} InsertPermutes<T>(x: Keyed<T>, s: seq<Keyed<T>>)
    ensures multiset(Insert(x, s)) == multiset{x} + multiset(s)
  {
    if s == [] || x.key <= s[0].key {
    } else {
      InsertPermutes(x, s[1..]);
      assert s == [s[0]] + s[1..];
    }
  }

  lemma {:induction false} InsertSorts<T>(x: Keyed<T>, s: seq<Keyed<T>>)
    requires Ascending(s)
    ensures Ascending(Insert(x, s))
  {
    if s == [] || x.key <= s[0].key {
    } else {
      var rest := s[1..];
      InsertSorts(x, rest);
      InsertPermutes(x, rest);
      var t := Insert(x, rest);
      forall i | 0 <= i < |t| ensures s[0].key <= t[i].key {
        assert t[i] in multiset(t);
        assert t[i] == x || t[i] in rest;
      }
    }
  }

  lemma {:induction false} OfKeyPrepend<T>(x: Keyed<T>, s: seq<Keyed<T>>, k: int)
    ensures OfKey([x] + s, k) == (if x.key == k then [x] else []) + OfKey(s, k)
  {
    assert ([x] + s)[1..] == s;
  }

  lemma {:induction false} InsertIsStable<T>(x: Keyed<T>, s: seq<Keyed<T>>, k: int)
    requires Ascending(s)
    ensures OfKey(Insert(x, s), k) == (if x.key == k then [x] else []) + OfKey(s, k)
  {
    hide OfKey;
    if s == [] || x.key <= s[0].key {
      OfKeyPrepend(x, s, k);
    } else {
      InsertIsStable(x, s[1..], k);
      var t := Insert(x, s[1..]);
      OfKeyPrepend(s[0], t, k);
      OfKeyPrepend(s[0], s[1..], k);
      assert s == [s[0]] + s[1..];
    }
  }

  /** What `sort` promises: sorted, a permutation, and stable. */
  lemma {:induction false} SortSorts<T>(s: seq<Keyed<T>>)
    ensures Ascending(Sort(s)) && multiset(Sort(s)) == multiset(s)
    ensures forall k :: OfKey(Sort(s), k) == OfKey(s, k)
  {
    if s != [] {
      SortSorts(s[1..]);
      InsertSorts(s[0], Sort(s[1..]));
      InsertPermutes(s[0], Sort(s[1..]));
      assert s == [s[0]] + s[1..];
      forall k ensures OfKey(Sort(s), k) == OfKey(s, k) {
        InsertIsStable(s[0], Sort(s[1..]), k);
      }
    }
  }

  function Items<T>(s: seq<Keyed<T>>): seq<T> {
    seq(|s|, i requires 0 <= i < |s| => s[i].item)
  }

  lemma ItemsPrepend<T>(x: Keyed<T>, s: seq<Keyed<T>>)
    ensures multiset(Items([x] + s)) == multiset{x.item} + multiset(Items(s))
  {
    assert Items([x] + s) == [x.item] + Items(s);
  }

  lemma {:induction false} InsertItems<T>(x: Keyed<T>, s: seq<Keyed<T>>)
    ensures multiset(Items(Insert(x, s))) == multiset{x.item} + multiset(Items(s))
  {
    hide Items;
    if s == [] || x.key <= s[0].key {
      ItemsPrepend(x, s);
    } else {
      InsertItems(x, s[1..]);
      ItemsPrepend(s[0], Insert(x, s[1..]));
      ItemsPrepend(s[0], s[1..]);
      assert s == [s[0]] + s[1..];
    }
  }

  /** Sorting keeps the items. */
  lemma {:induction false} SortItems<T>(s: seq<Keyed<T>>)
    ensures multiset(Items(Sort(s))) == multiset(Items(s))
  {
    hide Items;
    if s != [] {
      SortItems(s[1..]);
      InsertItems(s[0], Sort(s[1..]));
      ItemsPrepend(s[0], s[1..]);
      assert s == [s[0]] + s[1..];
    }
  }
}
