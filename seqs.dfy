/** Generic facts about sequences used by the demand tracker: filtering,
    counting by key, grouping keys, and a stable descending sort. */
module Seqs {

  /** `a` is obtained from `b` by deleting elements; the order of the rest is kept. */
  ghost predicate Subsequence<T>(a: seq<T>, b: seq<T>)
    decreases |b|
  {
    a == [] || (b != [] && ((a[0] == b[0] && Subsequence(a[1..], b[1..])) || Subsequence(a, b[1..])))
  }

  lemma {:induction false} SubsequenceRefl<T>(s: seq<T>)
    ensures Subsequence(s, s)
    decreases |s|
  {
    if s != [] {
      SubsequenceRefl(s[1..]);
    }
  }

  lemma {:induction false} SubsequenceTrans<T>(a: seq<T>, b: seq<T>, c: seq<T>)
    requires Subsequence(a, b) && Subsequence(b, c)
    ensures Subsequence(a, c)
    decreases |c|
  {
    if a != [] {
      if Subsequence(b, c[1..]) {
        SubsequenceTrans(a, b, c[1..]);
      } else if a[0] == b[0] && Subsequence(a[1..], b[1..]) {
        SubsequenceTrans(a[1..], b[1..], c[1..]);
      } else {
        SubsequenceTrans(a, b[1..], c[1..]);
      }
    }
  }

  /** The elements of `s` that satisfy `p`, in their original order (a list comprehension with a guard). */
  function Filter<T(!new)>(s: seq<T>, p: T -> bool): (r: seq<T>)
    ensures |r| <= |s|
    ensures forall x :: x in r <==> x in s && p(x)
    ensures Subsequence(r, s)
  {
    if s == [] then []
    else if p(s[0]) then [s[0]] + Filter(s[1..], p)
    else Filter(s[1..], p)
  }

  /** Filtering keeps every copy of an element that satisfies `p` and no copy of one that does not. */
  lemma {:induction false} FilterMultiplicity<T(!new)>(s: seq<T>, p: T -> bool)
    ensures forall x :: multiset(Filter(s, p))[x] == if p(x) then multiset(s)[x] else 0
    decreases |s|
  {
    if s != [] {
      assert s == [s[0]] + s[1..];
      FilterMultiplicity(s[1..], p);
    }
  }

  ghost predicate NoDuplicates<T>(s: seq<T>)
  {
    forall i, j :: 0 <= i < j < |s| ==> s[i] != s[j]
  }

  lemma NoDuplicatesAppend<T>(a: seq<T>, b: seq<T>)
    requires NoDuplicates(a) && NoDuplicates(b)
    requires forall x :: x in a ==> x !in b
    ensures NoDuplicates(a + b)
  {
    forall i, j | 0 <= i < j < |a + b|
      ensures (a + b)[i] != (a + b)[j]
    {
      if j < |a| {
        assert (a + b)[i] == a[i] && (a + b)[j] == a[j];
      } else if |a| <= i {
        assert (a + b)[i] == b[i - |a|] && (a + b)[j] == b[j - |a|];
      } else {
        assert (a + b)[i] == a[i] && a[i] in a;
        assert (a + b)[j] == b[j - |a|] && b[j - |a|] in b;
      }
    }
  }

  /** The number of elements of `s` whose key is `k`. */
  function Tally<T, K(==)>(s: seq<T>, key: T -> K, k: K): (n: nat)
    ensures n <= |s|
  {
    if s == [] then 0
    else Tally(s[..|s| - 1], key, k) + (if key(s[|s| - 1]) == k then 1 else 0)
  }

  /** No element has key `k` exactly when the count for `k` is zero. */
  lemma {:induction false} TallyZero<T, K>(s: seq<T>, key: T -> K, k: K)
    ensures Tally(s, key, k) == 0 <==> forall x :: x in s ==> key(x) != k
    decreases |s|
  {
    if s != [] {
      assert s == s[..|s| - 1] + [s[|s| - 1]];
      TallyZero(s[..|s| - 1], key, k);
    }
  }

  lemma {:induction false} TallySnoc<T, K>(s: seq<T>, x: T, key: T -> K, k: K)
    ensures Tally(s + [x], key, k) == Tally(s, key, k) + (if key(x) == k then 1 else 0)
  {
    assert (s + [x])[..|s|] == s;
  }

  /** If every element with key2 = k2 has key1 = k1, there are at most as many of the former. */
  lemma {:induction false} TallyMonotone<T, K1, K2>(s: seq<T>, key1: T -> K1, k1: K1, key2: T -> K2, k2: K2)
    requires forall x :: x in s && key2(x) == k2 ==> key1(x) == k1
    ensures Tally(s, key2, k2) <= Tally(s, key1, k1)
    decreases |s|
  {
    if s != [] {
      assert s == s[..|s| - 1] + [s[|s| - 1]];
      TallyMonotone(s[..|s| - 1], key1, k1, key2, k2);
    }
  }

  function Identity<K>(k: K): K { k }

  /** A list of distinct keys holds each key at most once. */
  lemma {:induction false} TallyDistinct<K>(ks: seq<K>, v: K)
    requires NoDuplicates(ks)
    ensures Tally(ks, Identity, v) == if v in ks then 1 else 0
    decreases |ks|
  {
    if ks != [] {
      var init, last := ks[..|ks| - 1], ks[|ks| - 1];
      assert ks == init + [last];
      TallyDistinct(init, v);
      if last == v {
        forall i | 0 <= i < |init|
          ensures init[i] != v
        {
          assert init[i] == ks[i];
        }
      }
    }
  }

  /** The sum, over the keys `ks`, of the number of elements with that key. */
  function SumTallies<T, K(==)>(s: seq<T>, key: T -> K, ks: seq<K>): nat
  {
    if ks == [] then 0
    else SumTallies(s, key, ks[..|ks| - 1]) + Tally(s, key, ks[|ks| - 1])
  }

  lemma {:induction false} SumTalliesSnoc<T, K>(s: seq<T>, x: T, key: T -> K, ks: seq<K>)
    ensures SumTallies(s + [x], key, ks) == SumTallies(s, key, ks) + Tally(ks, Identity, key(x))
    decreases |ks|
  {
    if ks != [] {
      SumTalliesSnoc(s, x, key, ks[..|ks| - 1]);
      TallySnoc(s, x, key, ks[|ks| - 1]);
    }
  }

  lemma {:induction false} SumTalliesEmpty<T, K>(key: T -> K, ks: seq<K>)
    ensures SumTallies([], key, ks) == 0
    decreases |ks|
  {
    if ks != [] {
      SumTalliesEmpty(key, ks[..|ks| - 1]);
    }
  }

  /** Counting by key over a list of distinct keys that covers every element accounts for every element once. */
  lemma {:induction false} TallyPartition<T, K>(s: seq<T>, key: T -> K, ks: seq<K>)
    requires NoDuplicates(ks)
    requires forall x :: x in s ==> key(x) in ks
    ensures SumTallies(s, key, ks) == |s|
    decreases |s|
  {
    if s == [] {
      SumTalliesEmpty(key, ks);
    } else {
      var init, x := s[..|s| - 1], s[|s| - 1];
      assert s == init + [x];
      TallyPartition(init, key, ks);
      SumTalliesSnoc(init, x, key, ks);
      TallyDistinct(ks, key(x));
    }
  }

  /** The sum of `m[k]` over the keys `ks`. */
  function SumValues<K>(ks: seq<K>, m: map<K, nat>): nat
    requires forall k :: k in ks ==> k in m
  {
    if ks == [] then 0 else SumValues(ks[..|ks| - 1], m) + m[ks[|ks| - 1]]
  }

  lemma {:induction false} SumValuesOfTallies<T, K>(s: seq<T>, key: T -> K, ks: seq<K>, m: map<K, nat>)
    requires forall k :: k in ks ==> k in m && m[k] == Tally(s, key, k)
    ensures SumValues(ks, m) == SumTallies(s, key, ks)
    decreases |ks|
  {
    if ks != [] {
      SumValuesOfTallies(s, key, ks[..|ks| - 1], m);
    }
  }

  /** The distinct elements of `s`, each at the position of its first occurrence. */
  function Dedup<T(==)>(s: seq<T>): seq<T>
  {
    if s == [] then []
    else
      var r := Dedup(s[..|s| - 1]);
      if s[|s| - 1] in r then r else r + [s[|s| - 1]]
  }

  lemma DedupSnoc<T>(s: seq<T>, x: T)
    ensures Dedup(s + [x]) == if x in Dedup(s) then Dedup(s) else Dedup(s) + [x]
  {
    assert (s + [x])[..|s|] == s;
  }

  /** Deduplication keeps exactly the elements of `s`, each once. */
  lemma {:induction false} DedupFacts<T>(s: seq<T>)
    ensures NoDuplicates(Dedup(s))
    ensures forall x :: x in Dedup(s) <==> x in s
    decreases |s|
  {
    if s != [] {
      assert s == s[..|s| - 1] + [s[|s| - 1]];
      DedupFacts(s[..|s| - 1]);
    }
  }

  /** `a` paired with every element of `ys`, in order. */
  function Pairing<A, B>(a: A, ys: seq<B>): (r: seq<(A, B)>)
    ensures |r| == |ys| && forall k :: 0 <= k < |ys| ==> r[k] == (a, ys[k])
  {
    seq(|ys|, k requires 0 <= k < |ys| => (a, ys[k]))
  }

  lemma PairingSnoc<A, B>(a: A, ys: seq<B>, j: nat)
    requires j < |ys|
    ensures Pairing(a, ys[..j + 1]) == Pairing(a, ys[..j]) + [(a, ys[j])]
  {
    var l, r := Pairing(a, ys[..j + 1]), Pairing(a, ys[..j]) + [(a, ys[j])];
    assert |l| == |r|;
    forall k | 0 <= k < |l| ensures l[k] == r[k] {
      if k < j {
        assert r[k] == Pairing(a, ys[..j])[k];
      }
    }
  }

  /** Every pair of `xs` and `ys`, the first component varying slowest (two nested for-loops). */
  function Product<A, B>(xs: seq<A>, ys: seq<B>): (r: seq<(A, B)>)
    ensures |r| == |xs| * |ys|
  {
    if xs == [] then [] else Product(xs[..|xs| - 1], ys) + Pairing(xs[|xs| - 1], ys)
  }

  lemma {:induction false} ProductMembers<A, B>(xs: seq<A>, ys: seq<B>, a: A, b: B)
    ensures (a, b) in Product(xs, ys) <==> a in xs && b in ys
    decreases |xs|
  {
    if xs != [] {
      var init, last := xs[..|xs| - 1], xs[|xs| - 1];
      assert xs == init + [last];
      ProductMembers(init, ys, a, b);
      if a == last && b in ys {
        var k :| 0 <= k < |ys| && ys[k] == b;
        assert Pairing(last, ys)[k] == (a, b);
      }
    }
  }

  lemma {:induction false} ProductFirsts<A, B>(xs: seq<A>, ys: seq<B>, p: (A, B))
    requires p in Product(xs, ys)
    ensures p.0 in xs
  {
    ProductMembers(xs, ys, p.0, p.1);
  }

  lemma {:induction false} ProductDistinct<A, B>(xs: seq<A>, ys: seq<B>)
    requires NoDuplicates(xs) && NoDuplicates(ys)
    ensures NoDuplicates(Product(xs, ys))
    decreases |xs|
  {
    if xs != [] {
      var init, last := xs[..|xs| - 1], xs[|xs| - 1];
      ProductDistinct(init, ys);
      var row := Pairing(last, ys);
      assert NoDuplicates(row);
      forall x | x in Product(init, ys)
        ensures x !in row
      {
        ProductFirsts(init, ys, x);
        forall i | 0 <= i < |init|
          ensures init[i] != last
        {
          assert init[i] == xs[i];
        }
      }
      NoDuplicatesAppend(Product(init, ys), row);
    }
  }

  ghost predicate SortedDesc<T>(s: seq<T>, key: T -> int)
  {
    forall i, j :: 0 <= i < j < |s| ==> key(s[i]) >= key(s[j])
  }

  /** Inserts `x` into a list sorted by descending key, ahead of every element whose key is not greater. */
  function InsertDesc<T>(x: T, r: seq<T>, key: T -> int): (r': seq<T>)
    requires SortedDesc(r, key)
    ensures |r'| == |r| + 1 && (r'[0] == x || (r != [] && r'[0] == r[0]))
    ensures SortedDesc(r', key)
    ensures multiset(r') == multiset(r) + multiset{x}
  {
    if r == [] || key(r[0]) <= key(x) then [x] + r
    else
      assert r == [r[0]] + r[1..];
      [r[0]] + InsertDesc(x, r[1..], key)
  }

  /** Sorts by descending key; elements with equal keys keep their relative order. */
  function SortDesc<T>(s: seq<T>, key: T -> int): (r: seq<T>)
    ensures SortedDesc(r, key)
    ensures multiset(r) == multiset(s)
  {
    if s == [] then []
    else
      assert s == [s[0]] + s[1..];
      InsertDesc(s[0], SortDesc(s[1..], key), key)
  }

  /** The elements of `s` whose key is `t`, in order. */
  function WithKey<T(!new)>(s: seq<T>, key: T -> int, t: int): seq<T>
  {
    Filter(s, (x: T) => key(x) == t)
  }

  lemma WithKeyCons<T(!new)>(x: T, s: seq<T>, key: T -> int, t: int)
    ensures WithKey([x] + s, key, t) == (if key(x) == t then [x] else []) + WithKey(s, key, t)
  {
    assert ([x] + s)[0] == x && ([x] + s)[1..] == s;
  }

  lemma {:induction false} InsertDescStable<T(!new)>(x: T, r: seq<T>, key: T -> int, t: int)
    requires SortedDesc(r, key)
    ensures WithKey(InsertDesc(x, r, key), key, t) == (if key(x) == t then [x] else []) + WithKey(r, key, t)
    decreases |r|
  {
    if r == [] || key(r[0]) <= key(x) {
      assert InsertDesc(x, r, key) == [x] + r;
      WithKeyCons(x, r, key, t);
    } else {
      var tail := InsertDesc(x, r[1..], key);
      assert InsertDesc(x, r, key) == [r[0]] + tail;
      InsertDescStable(x, r[1..], key, t);
      assert r == [r[0]] + r[1..];
      WithKeyCons(r[0], tail, key, t);
      WithKeyCons(r[0], r[1..], key, t);
    }
  }

  /** Sorting preserves, for every key, the original order of the elements with that key. */
  lemma {:induction false} SortDescStable<T(!new)>(s: seq<T>, key: T -> int, t: int)
    ensures WithKey(SortDesc(s, key), key, t) == WithKey(s, key, t)
    decreases |s|
  {
    if s != [] {
      SortDescStable(s[1..], key, t);
      InsertDescStable(s[0], SortDesc(s[1..], key), key, t);
      assert s == [s[0]] + s[1..];
      WithKeyCons(s[0], s[1..], key, t);
    }
  }

  /** The sum of `f` over the elements of `s`. */
  function SumOf<T>(s: seq<T>, f: T -> nat): nat
  {
    if s == [] then 0 else SumOf(s[..|s| - 1], f) + f(s[|s| - 1])
  }
}
