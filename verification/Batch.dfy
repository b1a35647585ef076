/** Splitting a batch read by the length of its request, and putting the answers together. */
module Batch {
  const BATCH_URL_MAX_CHARS := 1600

  /** The characters a list of names adds to the address: each name and its separator. */
  function Cost(names: seq<string>): nat {
    if names == [] then 0 else Cost(names[..|names| - 1]) + |names[|names| - 1]| + 1
  }

  /** A request that may be sent: short enough, or down to one name. */
  predicate Fits(names: seq<string>, overhead: nat) {
    |names| <= 1 || overhead + Cost(names) <= BATCH_URL_MAX_CHARS
  }

  function Flatten<T>(chunks: seq<seq<T>>): seq<T> {
    if chunks == [] then [] else chunks[0] + Flatten(chunks[1..])
  }

  /** How many leading names go into one request, the first `m` of them already taken. */
  function Extend(names: seq<string>, m: nat, overhead: nat): nat
    requires m <= |names|
    decreases |names| - m
  {
    if m < |names| && overhead + Cost(names[..m + 1]) <= BATCH_URL_MAX_CHARS
    then Extend(names, m + 1, overhead)
    else m
  }

  function First(names: seq<string>, overhead: nat): (n: nat)
    requires names != []
  {
    Extend(names, 1, overhead)
  }

  lemma {:induction false} ExtendIsMaximal(names: seq<string>, m: nat, overhead: nat)
    requires 1 <= m <= |names| && Fits(names[..m], overhead)
    ensures m <= Extend(names, m, overhead) <= |names|
    ensures Fits(names[..Extend(names, m, overhead)], overhead)
    ensures forall n :: Extend(names, m, overhead) < n <= |names| ==> !Fits(names[..n], overhead)
    decreases |names| - m
  {
    if m < |names| && overhead + Cost(names[..m + 1]) <= BATCH_URL_MAX_CHARS {
      ExtendIsMaximal(names, m + 1, overhead);
    } else {
      forall n | m < n <= |names| ensures !Fits(names[..n], overhead) {
        CostGrows(names, m + 1, n);
      }
    }
  }

  lemma {:induction false} CostGrows(names: seq<string>, m: nat, n: nat)
    requires m <= n <= |names|
    ensures Cost(names[..m]) <= Cost(names[..n])
    decreases n
  {
    if m < n {
      assert names[..n][..n - 1] == names[..n - 1];
      CostGrows(names, m, n - 1);
    }
  }

  function Greedy(names: seq<string>, overhead: nat): seq<seq<string>>
    decreases |names|
  {
    if names == [] then []
    else
      var n := First(names, overhead);
      if 1 <= n <= |names| then [names[..n]] + Greedy(names[n..], overhead) else []
  }

  /** A split of some names into requests that may be sent. */
  ghost predicate Split(chunks: seq<seq<string>>, names: seq<string>, overhead: nat) {
    Flatten(chunks) == names && forall c :: c in chunks ==> Fits(c, overhead)
  }

  lemma {:induction false} GreedySplits(names: seq<string>, overhead: nat)
    ensures Split(Greedy(names, overhead), names, overhead)
    ensures forall c :: c in Greedy(names, overhead) ==> c != []
    decreases |names|
  {
    if names != [] {
      ExtendIsMaximal(names, 1, overhead);
      var n := First(names, overhead);
      GreedySplits(names[n..], overhead);
      assert names == names[..n] + names[n..];
    }
  }

  lemma {:induction false} CostOfTail(names: seq<string>)
    requires names != []
    ensures Cost(names) == |names[0]| + 1 + Cost(names[1..])
  {
    if |names| > 1 {
      CostOfTail(names[..|names| - 1]);
      assert names[..|names| - 1][1..] == names[1..][..|names[1..]| - 1];
    }
  }

  /** Dropping a leading name never needs more requests. */
  lemma {:induction false} FewerNames(names: seq<string>, overhead: nat)
    requires names != []
    ensures |Greedy(names[1..], overhead)| <= |Greedy(names, overhead)|
    decreases |names|, 0
  {
    var n, rest := First(names, overhead), names[1..];
    ExtendIsMaximal(names, 1, overhead);
    if n == 1 || rest == [] {
    } else {
      var m := First(rest, overhead);
      ExtendIsMaximal(rest, 1, overhead);
      assert rest[..n - 1] == names[..n][1..];
      CostOfTail(names[..n]);
      assert Fits(rest[..n - 1], overhead);
      assert m >= n - 1;
      assert rest[n - 1..] == names[n..];
      DropNames(rest[n - 1..], m - (n - 1), overhead);
      assert rest[n - 1..][m - (n - 1)..] == rest[m..];
    }
  }

  lemma {:induction false} DropNames(names: seq<string>, k: nat, overhead: nat)
    requires k <= |names|
    ensures |Greedy(names[k..], overhead)| <= |Greedy(names, overhead)|
    decreases |names|, 1
  {
    if k > 0 {
      FewerNames(names, overhead);
      DropNames(names[1..], k - 1, overhead);
      assert names[1..][k - 1..] == names[k..];
    }
  }

  /** No split of the same names in the same order uses fewer requests. */
  lemma {:induction false} GreedyIsShortest(names: seq<string>, other: seq<seq<string>>, overhead: nat)
    requires Split(other, names, overhead)
    ensures |Greedy(names, overhead)| <= |other|
    decreases |other|
  {
    if names != [] {
      var c, rest := other[0], other[1..];
      assert c == names[..|c|] && Flatten(rest) == names[|c|..];
      GreedyIsShortest(names[|c|..], rest, overhead);
      ExtendIsMaximal(names, 1, overhead);
      var n := First(names, overhead);
      assert c in other && |c| <= n;
      DropNames(names[|c|..], n - |c|, overhead);
      assert names[|c|..][n - |c|..] == names[n..];
    }
  }

  /** The names in hand are the first of a chunk that may still take more of `rest`. */
  ghost predicate Filling(current: seq<string>, rest: seq<string>, overhead: nat) {
    current != [] && First(current + rest, overhead) == Extend(current + rest, |current|, overhead)
  }

  lemma CostOfNext(current: seq<string>, name: string)
    ensures Cost(current + [name]) == Cost(current) + |name| + 1
  {
    assert (current + [name])[..|current|] == current;
  }

  /** A name that does not fit closes the chunk, and the rest is split from there. */
  lemma ChunkCloses(current: seq<string>, name: string, rest: seq<string>, overhead: nat)
    requires Filling(current, [name] + rest, overhead)
    requires overhead + Cost(current + [name]) > BATCH_URL_MAX_CHARS
    ensures Greedy(current + ([name] + rest), overhead) == [current] + Greedy([name] + rest, overhead)
  {
    var all := current + ([name] + rest);
    assert all[..|current|] == current && all[..|current| + 1] == current + [name];
    assert all[|current|..] == [name] + rest;
  }

  lemma ChunkGrows(current: seq<string>, name: string, rest: seq<string>, overhead: nat)
    requires Filling(current, [name] + rest, overhead)
    requires overhead + Cost(current + [name]) <= BATCH_URL_MAX_CHARS
    ensures Filling(current + [name], rest, overhead)
  {
    var all := current + ([name] + rest);
    assert all == current + [name] + rest;
    assert all[..|current| + 1] == current + [name];
  }

  lemma ChunkOpens(name: string, rest: seq<string>, overhead: nat)
    ensures Filling([name], rest, overhead)
  {
  }

  lemma LastChunk(current: seq<string>, overhead: nat)
    requires Filling(current, [], overhead)
    ensures Greedy(current, overhead) == [current]
  {
    assert current + [] == current;
    assert current[..|current|] == current && current[|current|..] == [];
  }

  /** The split so far: closed chunks, a chunk being filled, and its length as an address. */
  ghost predicate Underway(all: seq<string>, done: seq<seq<string>>, current: seq<string>, length: nat,
                           rest: seq<string>, overhead: nat)
  {
    && length == overhead + Cost(current)
    && Greedy(all, overhead) == done + Greedy(current + rest, overhead)
    && (if current == [] then done == [] else Filling(current, rest, overhead))
  }

  lemma ClosesOnName(all: seq<string>, done: seq<seq<string>>, current: seq<string>, length: nat,
                     name: string, rest: seq<string>, overhead: nat)
    requires Underway(all, done, current, length, [name] + rest, overhead)
    requires current != [] && length + |name| + 1 > BATCH_URL_MAX_CHARS
    ensures Underway(all, done + [current], [name], overhead + |name| + 1, rest, overhead)
  {
    hide Greedy, Filling;
    CostOfNext(current, name);
    ChunkCloses(current, name, rest, overhead);
    ChunkOpens(name, rest, overhead);
    CostOfNext([], name);
    assert [] + [name] == [name];
    assert done + ([current] + Greedy([name] + rest, overhead)) == done + [current] + Greedy([name] + rest, overhead);
  }

  lemma TakesName(all: seq<string>, done: seq<seq<string>>, current: seq<string>, length: nat,
                  name: string, rest: seq<string>, overhead: nat)
    requires Underway(all, done, current, length, [name] + rest, overhead)
    requires current == [] || length + |name| + 1 <= BATCH_URL_MAX_CHARS
    ensures Underway(all, done, current + [name], length + |name| + 1, rest, overhead)
  {
    hide Greedy, Filling;
    CostOfNext(current, name);
    assert current + ([name] + rest) == current + [name] + rest;
    if current == [] {
      assert [] + [name] == [name];
      ChunkOpens(name, rest, overhead);
    } else {
      ChunkGrows(current, name, rest, overhead);
    }
  }

  lemma Finished(all: seq<string>, done: seq<seq<string>>, current: seq<string>, length: nat, overhead: nat)
    requires Underway(all, done, current, length, [], overhead) && current != []
    ensures Greedy(all, overhead) == done + [current]
  {
    hide Greedy;
    assert current + [] == current;
    LastChunk(current, overhead);
  }

  lemma FirstOfRest(names: seq<string>, i: nat)
    requires i < |names|
    ensures names[i..] == [names[i]] + names[i + 1..]
  {
  }

  /** Split a list of names into requests that fit the address limit. */
  method SplitByUrlBudget(params: seq<string>, overhead: nat) returns (chunks: seq<seq<string>>)
    ensures chunks == if params == [] then [[]] else Greedy(params, overhead)
  {
    var done: seq<seq<string>> := [];
    var current: seq<string> := [];
    var length: nat := overhead;
    assert Underway(params, [], [], overhead, params, overhead) by { assert [] + params == params; }
    hide *;
    for i := 0 to |params|
      invariant Underway(params, done, current, length, params[i..], overhead)
      invariant current == [] ==> i == 0
    {
      var name := params[i];
      FirstOfRest(params, i);
      if current != [] && length + |name| + 1 > BATCH_URL_MAX_CHARS {
        ClosesOnName(params, done, current, length, name, params[i + 1..], overhead);
        done := done + [current];
        current := [name];
        length := overhead + |name| + 1;
      } else {
        TakesName(params, done, current, length, name, params[i + 1..], overhead);
        current := current + [name];
        length := length + |name| + 1;
      }
    }
    chunks := done + [current];
    if params != [] {
      Finished(params, done, current, length, overhead);
    }
  }

  /** What the splitting promises of the chunks it returns: the names in order, every chunk
      of two or more within the limit, and no split obeying that rule with fewer. */
  lemma GreedyKeepsItsPromises(params: seq<string>, overhead: nat)
    requires params != []
    ensures var chunks := Greedy(params, overhead);
            && Flatten(chunks) == params
            && (forall c :: c in chunks ==> c != [] && (|c| >= 2 ==> overhead + Cost(c) <= BATCH_URL_MAX_CHARS))
            && (forall other :: Split(other, params, overhead) ==> |chunks| <= |other|)
  {
    GreedySplits(params, overhead);
    forall other | Split(other, params, overhead) ensures |Greedy(params, overhead)| <= |other| {
      GreedyIsShortest(params, other, overhead);
    }
  }

  // ----- the answers put together -------------------------------------------------------

  /** What a router that answers each name on its own gives for a list of them. */
  function Answer(value: string -> string, names: seq<string>): map<string, string> {
    map k | k in names :: value(k)
  }

  function Merged(value: string -> string, chunks: seq<seq<string>>): map<string, string> {
    if chunks == [] then map[] else Answer(value, chunks[0]) + Merged(value, chunks[1..])
  }

  /** Splitting never changes what the caller gets. */
  lemma {:induction false} MergedIsUnsplit(value: string -> string, chunks: seq<seq<string>>)
    ensures Merged(value, chunks) == Answer(value, Flatten(chunks))
  {
    if chunks != [] {
      MergedIsUnsplit(value, chunks[1..]);
    }
  }
}
