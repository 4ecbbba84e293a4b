/** Keyed orderings of sequences: the stable sort `Enumerable.OrderBy` performs (also
    used for `List.Sort`, which only ever sorts distinct keys here), and the
    "first one per key wins" filter the step parser and executor apply. */
module Ordering {
  import opened Wrappers

  predicate SortedBy<T>(xs: seq<T>, key: T -> int) {
    forall i, j :: 0 <= i < j < |xs| ==> key(xs[i]) <= key(xs[j])
  }

  predicate StrictlyIncreasingBy<T>(xs: seq<T>, key: T -> int) {
    forall i, j :: 0 <= i < j < |xs| ==> key(xs[i]) < key(xs[j])
  }

  predicate DistinctKeys<T>(xs: seq<T>, key: T -> int) {
    forall i, j :: 0 <= i < j < |xs| ==> key(xs[i]) != key(xs[j])
  }

  predicate HasKey<T>(xs: seq<T>, key: T -> int, n: int) {
    exists k :: 0 <= k < |xs| && key(xs[k]) == n
  }

  /** The first element of xs, in order, whose key is n. */
  function FirstWith<T>(xs: seq<T>, key: T -> int, n: int): (r: Option<T>)
    ensures r.Some? ==> r.value in xs && key(r.value) == n
    ensures r.None? <==> !HasKey(xs, key, n)
  {
    if xs == [] then None
    else if key(xs[0]) == n then Some(xs[0])
    else
      var r := FirstWith(xs[1..], key, n);
      assert HasKey(xs, key, n) ==> HasKey(xs[1..], key, n) by {
        if HasKey(xs, key, n) {
          var k :| 0 <= k < |xs| && key(xs[k]) == n;
          assert key(xs[1..][k - 1]) == n;
        }
      }
      assert HasKey(xs[1..], key, n) ==> HasKey(xs, key, n) by {
        if HasKey(xs[1..], key, n) {
          var k :| 0 <= k < |xs[1..]| && key(xs[1..][k]) == n;
          assert key(xs[k + 1]) == n;
        }
      }
      r
  }

  /** Inserts x after every element whose key is at most x's key. */
  function InsertBy<T>(xs: seq<T>, x: T, key: T -> int): (r: seq<T>)
    requires SortedBy(xs, key)
    ensures SortedBy(r, key)
    ensures multiset(r) == multiset(xs) + multiset{x}
    ensures |r| == |xs| + 1 && (r[0] == x || (xs != [] && r[0] == xs[0]))
  {
    if xs == [] then [x]
    else if key(x) < key(xs[0]) then [x] + xs
    else
      assert SortedBy(xs[1..], key) by {
        forall i, j | 0 <= i < j < |xs[1..]| ensures key(xs[1..][i]) <= key(xs[1..][j]) {
          assert xs[1..][i] == xs[i + 1] && xs[1..][j] == xs[j + 1];
        }
      }
      var rest := InsertBy(xs[1..], x, key);
      var r := [xs[0]] + rest;
      assert key(xs[0]) <= key(rest[0]);
      assert SortedBy(r, key) by {
        forall i, j | 0 <= i < j < |r| ensures key(r[i]) <= key(r[j]) {
          if i == 0 && j > 1 {
            assert key(rest[0]) <= key(rest[j - 1]);
          } else if i > 0 {
            assert r[i] == rest[i - 1] && r[j] == rest[j - 1];
          }
        }
      }
      assert xs == [xs[0]] + xs[1..];
      assert multiset(r) == multiset{xs[0]} + multiset(rest);
      r
  }

  /** The stable sort by key: later elements are inserted after earlier ones with the
      same key. */
  function SortBy<T>(xs: seq<T>, key: T -> int): (r: seq<T>)
    ensures SortedBy(r, key)
    ensures multiset(r) == multiset(xs)
  {
    if xs == [] then []
    else
      assert xs == xs[..|xs| - 1] + [xs[|xs| - 1]];
      InsertBy(SortBy(xs[..|xs| - 1], key), xs[|xs| - 1], key)
  }

  /** Keeps the first element for each key, in order; a later element whose key was
      already seen is dropped. */
  function DedupBy<T>(xs: seq<T>, key: T -> int): (d: seq<T>)
    ensures DistinctKeys(d, key)
    ensures forall k :: 0 <= k < |d| ==> d[k] in xs
    ensures forall i :: 0 <= i < |xs| ==> HasKey(d, key, key(xs[i]))
  {
    if xs == [] then []
    else
      var init := xs[..|xs| - 1];
      var last := xs[|xs| - 1];
      var d := DedupBy(init, key);
      assert forall i :: 0 <= i < |init| ==> xs[i] == init[i];
      if HasKey(d, key, key(last)) then d
      else
        var d' := d + [last];
        assert forall i :: 0 <= i < |xs| ==> HasKey(d', key, key(xs[i])) by {
          forall i | 0 <= i < |xs| ensures HasKey(d', key, key(xs[i])) {
            if i < |init| {
              var k :| 0 <= k < |d| && key(d[k]) == key(init[i]);
              assert key(d'[k]) == key(xs[i]);
            } else {
              assert key(d'[|d|]) == key(xs[i]);
            }
          }
        }
        d'
  }

  lemma {:induction false} FirstWithBelow<T>(xs: seq<T>, key: T -> int, n: int)
    requires SortedBy(xs, key) && xs != [] && n < key(xs[0])
    ensures FirstWith(xs, key, n) == None
  {
  }

  lemma {:induction false} FirstWithAppend<T>(xs: seq<T>, x: T, key: T -> int, n: int)
    ensures FirstWith(xs + [x], key, n)
         == if FirstWith(xs, key, n).Some? then FirstWith(xs, key, n)
            else if key(x) == n then Some(x) else None
  {
    if xs != [] {
      assert (xs + [x])[1..] == xs[1..] + [x];
      if key(xs[0]) != n {
        FirstWithAppend(xs[1..], x, key, n);
      }
    } else {
      assert [x][1..] == [];
    }
  }

  lemma {:induction false} FirstWithInsert<T>(xs: seq<T>, x: T, key: T -> int, n: int)
    requires SortedBy(xs, key)
    ensures FirstWith(InsertBy(xs, x, key), key, n)
         == if FirstWith(xs, key, n).Some? then FirstWith(xs, key, n)
            else if key(x) == n then Some(x) else None
  {
    if xs == [] {
      assert [x][1..] == [];
    } else if key(x) < key(xs[0]) {
      assert ([x] + xs)[1..] == xs;
      if key(x) == n {
        FirstWithBelow(xs, key, n);
      }
    } else {
      var rest := InsertBy(xs[1..], x, key);
      assert ([xs[0]] + rest)[1..] == rest;
      if key(xs[0]) != n {
        FirstWithInsert(xs[1..], x, key, n);
      }
    }
  }

  /** Stability: for every key, sorting keeps the same first element. */
  lemma {:induction false} SortByStable<T>(xs: seq<T>, key: T -> int, n: int)
    ensures FirstWith(SortBy(xs, key), key, n) == FirstWith(xs, key, n)
  {
    if xs != [] {
      var init := xs[..|xs| - 1];
      var last := xs[|xs| - 1];
      SortByStable(init, key, n);
      FirstWithInsert(SortBy(init, key), last, key, n);
      assert xs == init + [last];
      FirstWithAppend(init, last, key, n);
    }
  }

  /** Every element DedupBy keeps is the first of its key in the input. */
  lemma {:induction false} DedupByKeepsFirst<T>(xs: seq<T>, key: T -> int, k: nat)
    requires k < |DedupBy(xs, key)|
    ensures FirstWith(xs, key, key(DedupBy(xs, key)[k])) == Some(DedupBy(xs, key)[k])
  {
    var init := xs[..|xs| - 1];
    var last := xs[|xs| - 1];
    var d := DedupBy(init, key);
    var e := DedupBy(xs, key)[k];
    assert xs == init + [last];
    FirstWithAppend(init, last, key, key(e));
    if k < |d| {
      assert e == d[k];
      DedupByKeepsFirst(init, key, k);
    } else {
      assert e == last;
      assert !HasKey(d, key, key(last));
      assert forall i :: 0 <= i < |init| ==> key(init[i]) != key(last);
    }
  }

  /** Deduplicating a sorted sequence yields strictly increasing keys. */
  lemma {:induction false} DedupBySortedIncreasing<T>(xs: seq<T>, key: T -> int)
    requires SortedBy(xs, key)
    ensures StrictlyIncreasingBy(DedupBy(xs, key), key)
  {
    if xs != [] {
      var init := xs[..|xs| - 1];
      var last := xs[|xs| - 1];
      assert SortedBy(init, key);
      DedupBySortedIncreasing(init, key);
      var d := DedupBy(init, key);
      if !HasKey(d, key, key(last)) {
        var d' := d + [last];
        forall i, j | 0 <= i < j < |d'| ensures key(d'[i]) < key(d'[j]) {
          if j == |d| {
            assert d[i] in init;
            var m :| 0 <= m < |init| && init[m] == d[i];
            assert key(xs[m]) <= key(xs[|xs| - 1]);
            assert key(d[i]) != key(last);
          }
        }
      }
    }
  }

  /** A sorted sequence with distinct keys is strictly increasing. */
  lemma SortedDistinctIncreasing<T>(xs: seq<T>, key: T -> int)
    requires SortedBy(xs, key) && DistinctKeys(xs, key)
    ensures StrictlyIncreasingBy(xs, key)
  {
  }

  /** Each element of an insertion is the inserted element or one of xs. */
  lemma InsertByFrom<T>(xs: seq<T>, x: T, key: T -> int, m: nat)
    requires SortedBy(xs, key) && m < |InsertBy(xs, x, key)|
    ensures InsertBy(xs, x, key)[m] == x || InsertBy(xs, x, key)[m] in xs
  {
    var r := InsertBy(xs, x, key);
    assert r[m] in multiset(r);
  }

  /** Inserting an element under a new key keeps the keys distinct. */
  lemma {:induction false} InsertByDistinct<T>(xs: seq<T>, x: T, key: T -> int)
    requires SortedBy(xs, key) && DistinctKeys(xs, key) && !HasKey(xs, key, key(x))
    ensures DistinctKeys(InsertBy(xs, x, key), key)
  {
    if xs != [] && key(x) >= key(xs[0]) {
      var rest := InsertBy(xs[1..], x, key);
      forall k | 0 <= k < |xs[1..]| ensures key(xs[1..][k]) != key(x) {
        assert xs[1..][k] == xs[k + 1];
      }
      InsertByDistinct(xs[1..], x, key);
      forall m | 0 <= m < |rest| ensures key(rest[m]) != key(xs[0]) {
        InsertByFrom(xs[1..], x, key, m);
        if rest[m] != x {
          var k :| 0 <= k < |xs[1..]| && xs[1..][k] == rest[m];
          assert xs[k + 1] == rest[m];
        } else {
          assert key(xs[0]) != key(x) by { assert key(xs[0]) == key(x) ==> HasKey(xs, key, key(x)); }
        }
      }
    } else if xs != [] {
      assert forall k :: 0 <= k < |xs| ==> key(xs[k]) != key(x);
    }
  }

  /** Sorting keeps distinct keys distinct. */
  lemma {:induction false} SortByDistinct<T>(xs: seq<T>, key: T -> int)
    requires DistinctKeys(xs, key)
    ensures DistinctKeys(SortBy(xs, key), key)
  {
    if xs != [] {
      var init := xs[..|xs| - 1];
      var last := xs[|xs| - 1];
      var sorted := SortBy(init, key);
      assert DistinctKeys(init, key);
      SortByDistinct(init, key);
      forall k | 0 <= k < |sorted| ensures key(sorted[k]) != key(last) {
        assert sorted[k] in multiset(init);
        var m :| 0 <= m < |init| && init[m] == sorted[k];
        assert xs[m] == sorted[k];
      }
      InsertByDistinct(sorted, last, key);
    }
  }

  /** DedupBy keeps every key and adds none. */
  lemma DedupByHasKey<T>(xs: seq<T>, key: T -> int, n: int)
    ensures HasKey(DedupBy(xs, key), key, n) <==> HasKey(xs, key, n)
  {
    var d := DedupBy(xs, key);
    if HasKey(d, key, n) {
      var k :| 0 <= k < |d| && key(d[k]) == n;
      assert d[k] in xs;
      var m :| 0 <= m < |xs| && xs[m] == d[k];
      assert key(xs[m]) == n;
    }
    if HasKey(xs, key, n) {
      var m :| 0 <= m < |xs| && key(xs[m]) == n;
      assert HasKey(d, key, key(xs[m]));
    }
  }

  lemma {:induction false} InsertByLast<T>(xs: seq<T>, x: T, key: T -> int)
    requires SortedBy(xs, key) && forall k :: 0 <= k < |xs| ==> key(xs[k]) <= key(x)
    ensures InsertBy(xs, x, key) == xs + [x]
  {
    if xs != [] {
      InsertByLast(xs[1..], x, key);
      assert [xs[0]] + (xs[1..] + [x]) == xs + [x];
    }
  }

  /** Sorting a sorted sequence changes nothing. */
  lemma {:induction false} SortBySorted<T>(xs: seq<T>, key: T -> int)
    requires SortedBy(xs, key)
    ensures SortBy(xs, key) == xs
  {
    if xs != [] {
      var init := xs[..|xs| - 1];
      var last := xs[|xs| - 1];
      SortBySorted(init, key);
      InsertByLast(init, last, key);
      assert init + [last] == xs;
    }
  }

  /** DedupBy of a prefix is a prefix of DedupBy: the filter only ever appends. */
  lemma {:induction false} DedupByPrefix<T>(xs: seq<T>, key: T -> int, i: nat)
    requires i <= |xs|
    ensures DedupBy(xs[..i], key) <= DedupBy(xs, key)
    decreases |xs|
  {
    if i < |xs| {
      var init := xs[..|xs| - 1];
      DedupByPrefix(init, key, i);
      assert init[..i] == xs[..i];
    } else {
      assert xs[..i] == xs;
    }
  }

  /** A sequence whose keys are already distinct passes DedupBy unchanged. */
  lemma {:induction false} DedupByDistinct<T>(xs: seq<T>, key: T -> int)
    requires DistinctKeys(xs, key)
    ensures DedupBy(xs, key) == xs
  {
    if xs != [] {
      var init := xs[..|xs| - 1];
      var last := xs[|xs| - 1];
      assert DistinctKeys(init, key);
      DedupByDistinct(init, key);
      forall k | 0 <= k < |init| ensures key(init[k]) != key(last) {
        assert init[k] == xs[k];
      }
      assert init + [last] == xs;
    }
  }

  lemma HasKeySnoc<T>(xs: seq<T>, x: T, key: T -> int, n: int)
    ensures HasKey(xs + [x], key, n) <==> HasKey(xs, key, n) || key(x) == n
  {
    var ys := xs + [x];
    if HasKey(ys, key, n) && key(x) != n {
      var k :| 0 <= k < |ys| && key(ys[k]) == n;
      assert key(xs[k]) == n;
    }
    if HasKey(xs, key, n) {
      var k :| 0 <= k < |xs| && key(xs[k]) == n;
      assert key(ys[k]) == n;
    }
    if key(x) == n {
      assert key(ys[|xs|]) == n;
    }
  }

  /** The keys of the elements of xs. */
  function Keys<T>(xs: seq<T>, key: T -> int): set<int> {
    if xs == [] then {} else Keys(xs[..|xs| - 1], key) + {key(xs[|xs| - 1])}
  }

  lemma {:induction false} KeysHasKey<T>(xs: seq<T>, key: T -> int, n: int)
    ensures n in Keys(xs, key) <==> HasKey(xs, key, n)
  {
    if xs != [] {
      var init := xs[..|xs| - 1];
      KeysHasKey(init, key, n);
      assert init + [xs[|xs| - 1]] == xs;
      HasKeySnoc(init, xs[|xs| - 1], key, n);
    }
  }

  /** One step of a loop that keeps the first element of each key, remembering the
      keys seen so far. */
  lemma DedupByStep<T>(xs: seq<T>, key: T -> int, i: nat)
    requires i < |xs|
    ensures Keys(xs[..i + 1], key) == Keys(xs[..i], key) + {key(xs[i])}
    ensures key(xs[i]) in Keys(xs[..i], key) ==> DedupBy(xs[..i + 1], key) == DedupBy(xs[..i], key)
    ensures key(xs[i]) !in Keys(xs[..i], key) ==> DedupBy(xs[..i + 1], key) == DedupBy(xs[..i], key) + [xs[i]]
    ensures DedupBy(xs[..i + 1], key) <= DedupBy(xs, key)
  {
    var init, ys := xs[..i], xs[..i + 1];
    assert ys[..|ys| - 1] == init && ys[|ys| - 1] == xs[i];
    assert Keys(ys, key) == Keys(init, key) + {key(xs[i])};
    KeysHasKey(init, key, key(xs[i]));
    DedupBySnoc(ys, key);
    DedupByPrefix(xs, key, i + 1);
  }

  /** DedupBy keeps a last element exactly when its key is new. */
  lemma DedupBySnoc<T>(ys: seq<T>, key: T -> int)
    requires ys != []
    ensures var init, last := ys[..|ys| - 1], ys[|ys| - 1];
            DedupBy(ys, key) == if HasKey(init, key, key(last)) then DedupBy(init, key)
                                else DedupBy(init, key) + [last]
  {
    DedupByHasKey(ys[..|ys| - 1], key, key(ys[|ys| - 1]));
  }
}
