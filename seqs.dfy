/**
 * Sequence operations shared by several source files: `slice(0, n)`, the
 * "keep the first element of each key" filter over a `seen` Set (used for
 * posts by permalink, search results by title/author, chunks by type and
 * strings by identity) and `Array.prototype.sort`, which is stable.
 */
module Seqs {

  /** `xs.slice(0, n)` for a count that is never negative: the first `n` elements, or all of them. */
  function Take<T>(xs: seq<T>, n: nat): (r: seq<T>)
    ensures |r| == (if n < |xs| then n else |xs|)
    ensures r == xs[..|r|]
  {
    if n >= |xs| then xs else xs[..n]
  }

  /** The identity, as the key of a filter that compares the elements themselves. */
  function Id<T>(x: T): T { x }

  /**
   * `for (const x of xs) { v = x; if (p(v)) break; }` from `v = init`: the
   * first element that passes, or else the last one tried.
   */
  function FirstWhere<T>(xs: seq<T>, p: T -> bool, init: T): T
    decreases |xs|
  {
    if xs == [] then init
    else if p(xs[0]) || |xs| == 1 then xs[0]
    else FirstWhere(xs[1..], p, init)
  }

  /**
   * The result passes exactly when some element does, and then it is the
   * first element that passes; otherwise it is the last element (or `init`).
   */
  lemma {:induction false} FirstWhereFacts<T>(xs: seq<T>, p: T -> bool, init: T)
    ensures p(FirstWhere(xs, p, init)) <==> (exists i :: 0 <= i < |xs| && p(xs[i])) || (xs == [] && p(init))
    ensures (exists i :: 0 <= i < |xs| && p(xs[i])) ==>
              exists i :: 0 <= i < |xs| && xs[i] == FirstWhere(xs, p, init) && forall j :: 0 <= j < i ==> !p(xs[j])
    ensures (forall i :: 0 <= i < |xs| ==> !p(xs[i])) ==> FirstWhere(xs, p, init) == (if xs == [] then init else xs[|xs| - 1])
    decreases |xs|
  {
    if xs != [] && !p(xs[0]) && |xs| > 1 {
      FirstWhereFacts(xs[1..], p, init);
      if exists i :: 0 <= i < |xs| && p(xs[i]) {
        var i :| 0 <= i < |xs| && p(xs[i]);
        assert xs[1..][i - 1] == xs[i];
        var k :| 0 <= k < |xs[1..]| && xs[1..][k] == FirstWhere(xs[1..], p, init) &&
                 forall j :: 0 <= j < k ==> !p(xs[1..][j]);
        assert forall j :: 0 <= j < k + 1 ==> !p(xs[j]) by {
          forall j | 0 <= j < k + 1 ensures !p(xs[j]) {
            if j > 0 { assert xs[j] == xs[1..][j - 1]; }
          }
        }
      } else {
        assert forall i :: 0 <= i < |xs[1..]| ==> !p(xs[1..][i]) by {
          forall i | 0 <= i < |xs[1..]| ensures !p(xs[1..][i]) { assert xs[1..][i] == xs[i + 1]; }
        }
      }
    } else if xs != [] && p(xs[0]) {
      assert xs[0] == FirstWhere(xs, p, init);
    }
  }

  /** The loop itself. */
  method FindFirst<T>(xs: seq<T>, p: T -> bool, init: T) returns (v: T)
    ensures v == FirstWhere(xs, p, init)
  {
    v := init;
    var i := 0;
    while i < |xs|
      invariant 0 <= i <= |xs|
      invariant i < |xs| ==> FirstWhere(xs, p, init) == FirstWhere(xs[i..], p, init)
      invariant i == |xs| ==> FirstWhere(xs, p, init) == v
    {
      v := xs[i];
      if p(v) {
        break;
      }
      assert xs[i..][1..] == xs[i + 1..];
      i := i + 1;
    }
  }

  /** The set of keys of the elements of `xs`. */
  function KeysOf<T, K(==)>(xs: seq<T>, key: T -> K): set<K>
    decreases |xs|
  {
    if xs == [] then {} else {key(xs[0])} + KeysOf(xs[1..], key)
  }

  lemma {:induction false} KeysOfIndex<T, K>(xs: seq<T>, key: T -> K, i: nat)
    requires i < |xs|
    ensures key(xs[i]) in KeysOf(xs, key)
    decreases |xs|
  {
    if i > 0 { KeysOfIndex(xs[1..], key, i - 1); }
  }

  /** The position of the first element whose key is `k`. */
  function FirstIndex<T, K(==)>(xs: seq<T>, key: T -> K, k: K): (i: nat)
    requires k in KeysOf(xs, key)
    ensures i < |xs| && key(xs[i]) == k
    ensures forall j :: 0 <= j < i ==> key(xs[j]) != k
    decreases |xs|
  {
    if key(xs[0]) == k then 0 else 1 + FirstIndex(xs[1..], key, k)
  }

  /** Keeps an element only if no earlier element, and no key in `seen`, has its key. */
  function DedupFrom<T, K(==)>(xs: seq<T>, key: T -> K, seen: set<K>): seq<T>
    decreases |xs|
  {
    if xs == [] then []
    else if key(xs[0]) in seen then DedupFrom(xs[1..], key, seen)
    else [xs[0]] + DedupFrom(xs[1..], key, seen + {key(xs[0])})
  }

  /** The filter `x => { if (seen.has(key(x))) return false; seen.add(key(x)); return true; }`. */
  function Dedup<T, K(==)>(xs: seq<T>, key: T -> K): seq<T> {
    DedupFrom(xs, key, {})
  }

  /** The kept keys are exactly the keys of `xs` not already seen, each kept once. */
  lemma {:induction false} DedupFromKeys<T, K>(xs: seq<T>, key: T -> K, seen: set<K>)
    ensures KeysOf(DedupFrom(xs, key, seen), key) == KeysOf(xs, key) - seen
    ensures forall i :: 0 <= i < |DedupFrom(xs, key, seen)| ==> key(DedupFrom(xs, key, seen)[i]) !in seen
    ensures forall i, j :: 0 <= i < j < |DedupFrom(xs, key, seen)| ==>
              key(DedupFrom(xs, key, seen)[i]) != key(DedupFrom(xs, key, seen)[j])
    ensures |DedupFrom(xs, key, seen)| <= |xs|
    decreases |xs|
  {
    if xs != [] {
      var k := key(xs[0]);
      if k in seen {
        DedupFromKeys(xs[1..], key, seen);
      } else {
        DedupFromKeys(xs[1..], key, seen + {k});
        var r := DedupFrom(xs, key, seen);
        var r' := DedupFrom(xs[1..], key, seen + {k});
        assert r == [xs[0]] + r';
        assert r[1..] == r';
        forall i | 0 <= i < |r| ensures key(r[i]) !in seen {
          if i > 0 { assert r[i] == r'[i - 1]; }
        }
        forall i, j | 0 <= i < j < |r| ensures key(r[i]) != key(r[j]) {
          assert r[j] == r'[j - 1];
          if i > 0 { assert r[i] == r'[i - 1]; }
        }
      }
    }
  }

  /** Every kept element is the first element of `xs` with its key, and kept elements keep the order of those first occurrences. */
  lemma {:induction false} DedupFromFirst<T, K>(xs: seq<T>, key: T -> K, seen: set<K>)
    ensures forall i :: 0 <= i < |DedupFrom(xs, key, seen)| ==>
              key(DedupFrom(xs, key, seen)[i]) in KeysOf(xs, key) &&
              DedupFrom(xs, key, seen)[i] == xs[FirstIndex(xs, key, key(DedupFrom(xs, key, seen)[i]))]
    ensures forall i, j :: 0 <= i < j < |DedupFrom(xs, key, seen)| ==>
              key(DedupFrom(xs, key, seen)[i]) in KeysOf(xs, key) &&
              key(DedupFrom(xs, key, seen)[j]) in KeysOf(xs, key) &&
              FirstIndex(xs, key, key(DedupFrom(xs, key, seen)[i])) < FirstIndex(xs, key, key(DedupFrom(xs, key, seen)[j]))
    decreases |xs|
  {
    if xs != [] {
      var k := key(xs[0]);
      var r := DedupFrom(xs, key, seen);
      var s' := if k in seen then seen else seen + {k};
      var r' := DedupFrom(xs[1..], key, s');
      DedupFromFirst(xs[1..], key, s');
      DedupFromKeys(xs[1..], key, s');
      assert KeysOf(xs, key) == {k} + KeysOf(xs[1..], key);
      // an element of r' has a key other than k, so its first index in xs is one past its first index in xs[1..]
      forall i | 0 <= i < |r'|
        ensures key(r'[i]) in KeysOf(xs, key) && key(r'[i]) != k
        ensures FirstIndex(xs, key, key(r'[i])) == 1 + FirstIndex(xs[1..], key, key(r'[i]))
        ensures r'[i] == xs[FirstIndex(xs, key, key(r'[i]))]
      {
      }
      if k in seen {
        assert r == r';
      } else {
        assert r == [xs[0]] + r';
        forall i | 0 <= i < |r|
          ensures key(r[i]) in KeysOf(xs, key) && r[i] == xs[FirstIndex(xs, key, key(r[i]))]
        {
          if i > 0 { assert r[i] == r'[i - 1]; }
        }
        forall i, j | 0 <= i < j < |r|
          ensures key(r[i]) in KeysOf(xs, key) && key(r[j]) in KeysOf(xs, key)
          ensures FirstIndex(xs, key, key(r[i])) < FirstIndex(xs, key, key(r[j]))
        {
          assert r[j] == r'[j - 1];
          if i > 0 { assert r[i] == r'[i - 1]; }
        }
      }
    }
  }

  /** Appending one element: it is kept iff its key is new. */
  lemma {:induction false} DedupFromSnoc<T, K>(xs: seq<T>, x: T, key: T -> K, seen: set<K>)
    ensures DedupFrom(xs + [x], key, seen) ==
            DedupFrom(xs, key, seen) + (if key(x) in KeysOf(xs, key) + seen then [] else [x])
    decreases |xs|
  {
    if xs == [] {
      assert xs + [x] == [x];
    } else {
      var k := key(xs[0]);
      assert (xs + [x])[0] == xs[0] && (xs + [x])[1..] == xs[1..] + [x];
      assert KeysOf(xs, key) == {k} + KeysOf(xs[1..], key);
      if k in seen {
        DedupFromSnoc(xs[1..], x, key, seen);
      } else {
        DedupFromSnoc(xs[1..], x, key, seen + {k});
      }
    }
  }

  /** Filtering a concatenation: the second part starts with the keys of the first one seen. */
  lemma {:induction false} DedupFromAppend<T, K>(a: seq<T>, b: seq<T>, key: T -> K, seen: set<K>)
    ensures DedupFrom(a + b, key, seen) == DedupFrom(a, key, seen) + DedupFrom(b, key, seen + KeysOf(a, key))
    decreases |a|
  {
    if a == [] {
      assert a + b == b;
      assert seen + KeysOf(a, key) == seen;
    } else {
      var k := key(a[0]);
      assert (a + b)[0] == a[0] && (a + b)[1..] == a[1..] + b;
      assert KeysOf(a, key) == {k} + KeysOf(a[1..], key);
      if k in seen {
        DedupFromAppend(a[1..], b, key, seen);
        assert seen + KeysOf(a[1..], key) == seen + KeysOf(a, key);
      } else {
        DedupFromAppend(a[1..], b, key, seen + {k});
        assert seen + {k} + KeysOf(a[1..], key) == seen + KeysOf(a, key);
      }
    }
  }

  /** Filtering a prefix gives a prefix of the filtered whole. */
  lemma DedupFromPrefix<T, K>(xs: seq<T>, i: nat, key: T -> K, seen: set<K>)
    requires i <= |xs|
    ensures DedupFrom(xs[..i], key, seen) <= DedupFrom(xs, key, seen)
  {
    assert xs == xs[..i] + xs[i..];
    DedupFromAppend(xs[..i], xs[i..], key, seen);
  }

  /** Filtering keeps only elements of `xs`. */
  lemma {:induction false} DedupFromMembers<T, K>(xs: seq<T>, key: T -> K, seen: set<K>)
    ensures forall x :: x in DedupFrom(xs, key, seen) ==> x in xs
    decreases |xs|
  {
    if xs != [] {
      var k := key(xs[0]);
      if k in seen {
        DedupFromMembers(xs[1..], key, seen);
      } else {
        DedupFromMembers(xs[1..], key, seen + {k});
      }
    }
  }

  /** With the identity as key, the keys are the elements. */
  lemma {:induction false} KeysOfId<T>(xs: seq<T>)
    ensures forall x :: x in KeysOf(xs, Id) <==> x in xs
    decreases |xs|
  {
    if xs != [] {
      KeysOfId(xs[1..]);
      assert xs == [xs[0]] + xs[1..];
    }
  }

  lemma {:induction false} KeysOfAppend<T, K>(a: seq<T>, b: seq<T>, key: T -> K)
    ensures KeysOf(a + b, key) == KeysOf(a, key) + KeysOf(b, key)
    decreases |a|
  {
    if a == [] {
      assert a + b == b;
    } else {
      KeysOfAppend(a[1..], b, key);
      assert (a + b)[1..] == a[1..] + b;
    }
  }

  /** One more element read by the filter loop: kept iff its key is new, and its key is now seen. */
  lemma DedupNext<T, K>(xs: seq<T>, i: nat, key: T -> K)
    requires i < |xs|
    ensures Dedup(xs[..i + 1], key) ==
            Dedup(xs[..i], key) + (if key(xs[i]) in KeysOf(xs[..i], key) then [] else [xs[i]])
    ensures KeysOf(xs[..i + 1], key) == KeysOf(xs[..i], key) + {key(xs[i])}
  {
    assert xs[..i + 1] == xs[..i] + [xs[i]];
    DedupFromSnoc(xs[..i], xs[i], key, {});
    assert KeysOf(xs[..i], key) + {} == KeysOf(xs[..i], key);
    KeysOfAppend(xs[..i], [xs[i]], key);
  }

  /** Elements with pairwise distinct keys have as many keys as elements. */
  lemma {:induction false} KeysOfCard<T, K>(xs: seq<T>, key: T -> K)
    requires forall i, j :: 0 <= i < j < |xs| ==> key(xs[i]) != key(xs[j])
    ensures |KeysOf(xs, key)| == |xs|
    decreases |xs|
  {
    if xs != [] {
      assert forall i, j :: 0 <= i < j < |xs[1..]| ==> key(xs[1..][i]) != key(xs[1..][j]) by {
        forall i, j | 0 <= i < j < |xs[1..]| ensures key(xs[1..][i]) != key(xs[1..][j]) {
          assert xs[1..][i] == xs[i + 1] && xs[1..][j] == xs[j + 1];
        }
      }
      KeysOfCard(xs[1..], key);
      forall j | 0 <= j < |xs[1..]| ensures key(xs[1..][j]) != key(xs[0]) {
        assert xs[1..][j] == xs[j + 1];
      }
      KeysOfMissing(xs[1..], key, key(xs[0]));
    }
  }

  /** A key no element has is not a key of `xs`. */
  lemma {:induction false} KeysOfMissing<T, K>(xs: seq<T>, key: T -> K, k: K)
    requires forall j :: 0 <= j < |xs| ==> key(xs[j]) != k
    ensures k !in KeysOf(xs, key)
    decreases |xs|
  {
    if xs != [] {
      forall j | 0 <= j < |xs[1..]| ensures key(xs[1..][j]) != k {
        assert xs[1..][j] == xs[j + 1];
      }
      KeysOfMissing(xs[1..], key, k);
    }
  }

  /** The loop behind `xs.filter(...)` with a mutated `seen` Set. */
  method DedupByKey<T, K(==)>(xs: seq<T>, key: T -> K) returns (out: seq<T>)
    ensures out == Dedup(xs, key)
  {
    var seen: set<K> := {};
    out := [];
    var i := 0;
    while i < |xs|
      invariant 0 <= i <= |xs|
      invariant out + DedupFrom(xs[i..], key, seen) == Dedup(xs, key)
    {
      assert xs[i..][0] == xs[i] && xs[i..][1..] == xs[i + 1..];
      var k := key(xs[i]);
      if k !in seen {
        out := out + [xs[i]];
        seen := seen + {k};
      }
      i := i + 1;
    }
  }

  /** The elements of `xs` whose key is `k`, in order. */
  function FilterKey<T, K(==)>(xs: seq<T>, key: T -> K, k: K): seq<T>
    decreases |xs|
  {
    if xs == [] then [] else (if key(xs[0]) == k then [xs[0]] else []) + FilterKey(xs[1..], key, k)
  }

  lemma {:induction false} FilterKeySnoc<T, K>(xs: seq<T>, x: T, key: T -> K, k: K)
    ensures FilterKey(xs + [x], key, k) == FilterKey(xs, key, k) + (if key(x) == k then [x] else [])
    decreases |xs|
  {
    var t := if key(x) == k then [x] else [];
    if xs == [] {
      assert xs + [x] == [x];
      assert FilterKey([x], key, k) == t + [];
    } else {
      var h := if key(xs[0]) == k then [xs[0]] else [];
      var ys := xs + [x];
      assert ys[0] == xs[0] && ys[1..] == xs[1..] + [x];
      FilterKeySnoc(xs[1..], x, key, k);
      assert FilterKey(ys, key, k) == h + (FilterKey(xs[1..], key, k) + t);
      assert h + (FilterKey(xs[1..], key, k) + t) == (h + FilterKey(xs[1..], key, k)) + t;
    }
  }

  /** The first element with key `k` heads the elements with that key. */
  lemma {:induction false} FilterKeyFirst<T, K>(xs: seq<T>, key: T -> K, k: K)
    requires k in KeysOf(xs, key)
    ensures |FilterKey(xs, key, k)| > 0 && FilterKey(xs, key, k)[0] == xs[FirstIndex(xs, key, k)]
    decreases |xs|
  {
    if key(xs[0]) != k {
      assert KeysOf(xs, key) == {key(xs[0])} + KeysOf(xs[1..], key);
      FilterKeyFirst(xs[1..], key, k);
      assert FilterKey(xs, key, k) == FilterKey(xs[1..], key, k);
      assert FirstIndex(xs, key, k) == 1 + FirstIndex(xs[1..], key, k);
      assert xs[1..][FirstIndex(xs[1..], key, k)] == xs[FirstIndex(xs, key, k)];
    }
  }

  /** The group of a key that does not occur is empty. */
  lemma {:induction false} FilterKeyAbsent<T, K>(xs: seq<T>, key: T -> K, k: K)
    requires k !in KeysOf(xs, key)
    ensures FilterKey(xs, key, k) == []
    decreases |xs|
  {
    if xs != [] {
      FilterKeyAbsent(xs[1..], key, k);
    }
  }

  lemma {:induction false} FilterKeyMembers<T, K>(xs: seq<T>, key: T -> K, k: K)
    ensures forall x :: x in FilterKey(xs, key, k) ==> x in xs && key(x) == k
    decreases |xs|
  {
    if xs != [] { FilterKeyMembers(xs[1..], key, k); }
  }

  lemma AppendAssoc<T>(a: seq<T>, b: seq<T>, c: seq<T>)
    ensures (a + b) + c == a + (b + c)
  {
  }

  /** `xs.filter(p)`. */
  function Filter<T>(xs: seq<T>, p: T -> bool): seq<T>
    decreases |xs|
  {
    if xs == [] then [] else (if p(xs[0]) then [xs[0]] else []) + Filter(xs[1..], p)
  }

  /** The filter keeps exactly the elements that pass, no more often than they occur. */
  lemma {:induction false} FilterFacts<T>(xs: seq<T>, p: T -> bool)
    ensures |Filter(xs, p)| <= |xs|
    ensures multiset(Filter(xs, p)) <= multiset(xs)
    ensures forall x :: x in Filter(xs, p) <==> x in xs && p(x)
    decreases |xs|
  {
    if xs != [] {
      FilterFacts(xs[1..], p);
      assert xs == [xs[0]] + xs[1..];
    }
  }

  /** No two elements share a key. */
  predicate KeysDistinct<T, K(==)>(xs: seq<T>, key: T -> K) {
    forall i, j :: 0 <= i < j < |xs| ==> key(xs[i]) != key(xs[j])
  }

  /** An element found twice in `ys` is counted at least twice. */
  lemma TwiceCounted<T>(ys: seq<T>, i: nat, j: nat)
    requires i < j < |ys| && ys[i] == ys[j]
    ensures multiset(ys)[ys[i]] >= 2
  {
    assert ys == ys[..j] + ys[j..];
    assert ys[i] in ys[..j];
    assert ys[j..][0] == ys[j];
  }

  /** An element counted twice in `xs` sits at two positions. */
  lemma TwoPlaces<T>(xs: seq<T>, x: T) returns (a: nat, b: nat)
    requires multiset(xs)[x] >= 2
    ensures a < |xs| && b < |xs| && a != b && xs[a] == x && xs[b] == x
  {
    a :| 0 <= a < |xs| && xs[a] == x;
    assert xs == xs[..a] + [x] + xs[a + 1..];
    if x in xs[..a] {
      b :| 0 <= b < a && xs[..a][b] == x;
    } else {
      assert x in xs[a + 1..];
      var k :| 0 <= k < |xs[a + 1..]| && xs[a + 1..][k] == x;
      b := a + 1 + k;
    }
  }

  /** Reordering keeps keys distinct. */
  lemma PermutationKeysDistinct<T, K>(xs: seq<T>, ys: seq<T>, key: T -> K)
    requires multiset(xs) == multiset(ys) && KeysDistinct(xs, key)
    ensures KeysDistinct(ys, key)
  {
    forall i, j | 0 <= i < j < |ys| ensures key(ys[i]) != key(ys[j]) {
      assert ys[i] in multiset(xs) && ys[j] in multiset(xs);
      if ys[i] == ys[j] {
        TwiceCounted(ys, i, j);
        var a, b := TwoPlaces(xs, ys[i]);
        assert false;
      } else {
        var a :| 0 <= a < |xs| && xs[a] == ys[i];
        var b :| 0 <= b < |xs| && xs[b] == ys[j];
        assert a != b;
      }
    }
  }

  /** No element occurs twice. */
  predicate NoDup<T(==)>(xs: seq<T>) {
    forall i, j :: 0 <= i < j < |xs| ==> xs[i] != xs[j]
  }

  lemma {:induction false} DistinctCard<T>(xs: seq<T>)
    ensures |set x | x in xs| <= |xs|
    ensures NoDup(xs) ==> |set x | x in xs| == |xs|
    decreases |xs|
  {
    if xs != [] {
      DistinctCard(xs[1..]);
      assert (set x | x in xs) == {xs[0]} + (set x | x in xs[1..]);
      if NoDup(xs) {
        assert NoDup(xs[1..]) by {
          forall i, j | 0 <= i < j < |xs[1..]| ensures xs[1..][i] != xs[1..][j] {
            assert xs[1..][i] == xs[i + 1] && xs[1..][j] == xs[j + 1];
          }
        }
        assert xs[0] !in xs[1..] by {
          forall j | 0 <= j < |xs[1..]| ensures xs[1..][j] != xs[0] {
            assert xs[1..][j] == xs[j + 1];
          }
        }
      }
    }
  }

  /** Joining two repetition-free sequences with no common element gives a repetition-free sequence. */
  lemma NoDupAppend<T>(a: seq<T>, b: seq<T>)
    requires NoDup(a) && NoDup(b) && forall x :: x in b ==> x !in a
    ensures NoDup(a + b)
  {
    var ab := a + b;
    forall i, j | 0 <= i < j < |ab| ensures ab[i] != ab[j] {
      if j < |a| {
        assert ab[i] == a[i] && ab[j] == a[j];
      } else if i < |a| {
        assert ab[i] == a[i] && ab[j] == b[j - |a|];
        assert ab[j] in b && ab[i] in a;
      } else {
        assert ab[i] == b[i - |a|] && ab[j] == b[j - |a|];
      }
    }
  }

  /** A repetition-free sequence drawn from `ys` is no longer than `ys`. */
  lemma NoDupLength<T>(xs: seq<T>, ys: seq<T>)
    requires NoDup(xs)
    requires forall x :: x in xs ==> x in ys
    ensures |xs| <= |ys|
  {
    DistinctCard(xs);
    DistinctCard(ys);
    var a, b := set x | x in xs, set y | y in ys;
    assert a <= b;
    SubsetCard(a, b);
  }

  lemma {:induction false} SubsetCard<T>(a: set<T>, b: set<T>)
    requires a <= b
    ensures |a| <= |b|
    decreases |a|
  {
    if a != {} {
      var x :| x in a;
      SubsetCard(a - {x}, b - {x});
    }
  }

  /** Places `x` before the first element whose key is not greater, so equal keys keep their order. */
  function Insert<T>(x: T, ys: seq<T>, key: T -> real): seq<T>
    decreases |ys|
  {
    if ys == [] || key(ys[0]) <= key(x) then [x] + ys else [ys[0]] + Insert(x, ys[1..], key)
  }

  /** `xs.sort((a, b) => key(b) - key(a))`: a stable sort, highest key first. */
  function SortDesc<T>(xs: seq<T>, key: T -> real): seq<T>
    decreases |xs|
  {
    if xs == [] then [] else Insert(xs[0], SortDesc(xs[1..], key), key)
  }

  predicate SortedDesc<T>(xs: seq<T>, key: T -> real) {
    forall i, j :: 0 <= i < j < |xs| ==> key(xs[i]) >= key(xs[j])
  }

  lemma {:induction false} InsertMultiset<T>(x: T, ys: seq<T>, key: T -> real)
    ensures multiset(Insert(x, ys, key)) == multiset(ys) + multiset{x}
    decreases |ys|
  {
    if !(ys == [] || key(ys[0]) <= key(x)) {
      InsertMultiset(x, ys[1..], key);
      assert ys == [ys[0]] + ys[1..];
    }
  }

  predicate AllAtMost<T>(xs: seq<T>, key: T -> real, b: real) {
    forall i :: 0 <= i < |xs| ==> key(xs[i]) <= b
  }

  lemma {:induction false} InsertAtMost<T>(x: T, ys: seq<T>, key: T -> real, b: real)
    requires AllAtMost(ys, key, b) && key(x) <= b
    ensures AllAtMost(Insert(x, ys, key), key, b)
    decreases |ys|
  {
    var r := Insert(x, ys, key);
    if ys == [] || key(ys[0]) <= key(x) {
      forall i | 0 <= i < |r| ensures key(r[i]) <= b {
        if i > 0 { assert r[i] == ys[i - 1]; }
      }
    } else {
      var rest := Insert(x, ys[1..], key);
      assert AllAtMost(ys[1..], key, b) by {
        forall i | 0 <= i < |ys[1..]| ensures key(ys[1..][i]) <= b { assert ys[1..][i] == ys[i + 1]; }
      }
      InsertAtMost(x, ys[1..], key, b);
      forall i | 0 <= i < |r| ensures key(r[i]) <= b {
        if i > 0 { assert r[i] == rest[i - 1]; }
      }
    }
  }

  lemma {:induction false} InsertSorted<T>(x: T, ys: seq<T>, key: T -> real)
    requires SortedDesc(ys, key)
    ensures SortedDesc(Insert(x, ys, key), key)
    decreases |ys|
  {
    var r := Insert(x, ys, key);
    if ys == [] || key(ys[0]) <= key(x) {
      forall i, j | 0 <= i < j < |r| ensures key(r[i]) >= key(r[j]) {
        assert r[j] == ys[j - 1];
        if i > 0 { assert r[i] == ys[i - 1]; }
      }
    } else {
      var rest := Insert(x, ys[1..], key);
      assert SortedDesc(ys[1..], key) && AllAtMost(ys[1..], key, key(ys[0])) by {
        forall i, j | 0 <= i < j < |ys[1..]| ensures key(ys[1..][i]) >= key(ys[1..][j]) {
          assert ys[1..][i] == ys[i + 1] && ys[1..][j] == ys[j + 1];
        }
        forall i | 0 <= i < |ys[1..]| ensures key(ys[1..][i]) <= key(ys[0]) { assert ys[1..][i] == ys[i + 1]; }
      }
      InsertSorted(x, ys[1..], key);
      InsertAtMost(x, ys[1..], key, key(ys[0]));
      forall i, j | 0 <= i < j < |r| ensures key(r[i]) >= key(r[j]) {
        assert r[j] == rest[j - 1];
        if i > 0 { assert r[i] == rest[i - 1]; }
      }
    }
  }

  lemma {:induction false} InsertFilter<T>(x: T, ys: seq<T>, key: T -> real, v: real)
    ensures FilterKey(Insert(x, ys, key), key, v) == (if key(x) == v then [x] else []) + FilterKey(ys, key, v)
    decreases |ys|
  {
    var r := Insert(x, ys, key);
    if ys == [] || key(ys[0]) <= key(x) {
      assert r[0] == x && r[1..] == ys;
    } else {
      var rest := Insert(x, ys[1..], key);
      InsertFilter(x, ys[1..], key, v);
      assert r[0] == ys[0] && r[1..] == rest;
      assert FilterKey(r, key, v) == (if key(ys[0]) == v then [ys[0]] else []) + FilterKey(rest, key, v);
      assert FilterKey(ys, key, v) == (if key(ys[0]) == v then [ys[0]] else []) + FilterKey(ys[1..], key, v);
      if key(x) == v {
        assert key(ys[0]) != v;
      }
    }
  }

  lemma {:induction false} SortDescSorted<T>(xs: seq<T>, key: T -> real)
    ensures SortedDesc(SortDesc(xs, key), key)
    decreases |xs|
  {
    if xs != [] {
      SortDescSorted(xs[1..], key);
      InsertSorted(xs[0], SortDesc(xs[1..], key), key);
    }
  }

  lemma {:induction false} SortDescPermutation<T>(xs: seq<T>, key: T -> real)
    ensures multiset(SortDesc(xs, key)) == multiset(xs)
    decreases |xs|
  {
    if xs != [] {
      SortDescPermutation(xs[1..], key);
      InsertMultiset(xs[0], SortDesc(xs[1..], key), key);
      assert xs == [xs[0]] + xs[1..];
    }
  }

  lemma {:induction false} SortDescStable<T>(xs: seq<T>, key: T -> real, v: real)
    ensures FilterKey(SortDesc(xs, key), key, v) == FilterKey(xs, key, v)
    decreases |xs|
  {
    if xs != [] {
      SortDescStable(xs[1..], key, v);
      InsertFilter(xs[0], SortDesc(xs[1..], key), key, v);
    }
  }

  /** `xs.map(f)`. */
  function MapSeq<T, U>(xs: seq<T>, f: T -> U): (r: seq<U>)
    ensures |r| == |xs| && forall i :: 0 <= i < |xs| ==> r[i] == f(xs[i])
  {
    seq(|xs|, i requires 0 <= i < |xs| => f(xs[i]))
  }

  lemma MapCons<T, U>(x: T, ys: seq<T>, f: T -> U)
    ensures MapSeq([x] + ys, f) == [f(x)] + MapSeq(ys, f)
  {
  }

  /** Inserting, then mapping, is mapping, then inserting by the key the map carries along. */
  lemma {:induction false} InsertMap<T, U>(x: T, ys: seq<T>, key: T -> real, f: T -> U, key2: U -> real)
    requires key(x) == key2(f(x)) && forall y :: y in ys ==> key(y) == key2(f(y))
    ensures MapSeq(Insert(x, ys, key), f) == Insert(f(x), MapSeq(ys, f), key2)
    decreases |ys|
  {
    var m := MapSeq(ys, f);
    MapCons(x, ys, f);
    if ys == [] || key(ys[0]) <= key(x) {
      assert ys != [] ==> key2(m[0]) <= key2(f(x));
    } else {
      var rest := Insert(x, ys[1..], key);
      assert forall y :: y in ys[1..] ==> y in ys;
      InsertMap(x, ys[1..], key, f, key2);
      MapCons(ys[0], ys[1..], f);
      MapCons(ys[0], rest, f);
      assert ys == [ys[0]] + ys[1..];
    }
  }

  /** Sorting commutes with a map that carries the key along (`scored.sort(...).map(s => s.chunk)`). */
  lemma {:induction false} SortDescMap<T, U>(xs: seq<T>, key: T -> real, f: T -> U, key2: U -> real)
    requires forall x :: x in xs ==> key(x) == key2(f(x))
    ensures MapSeq(SortDesc(xs, key), f) == SortDesc(MapSeq(xs, f), key2)
    decreases |xs|
  {
    if xs != [] {
      var m := MapSeq(xs, f);
      var tail := SortDesc(xs[1..], key);
      SortDescMap(xs[1..], key, f, key2);
      SortDescPermutation(xs[1..], key);
      forall y | y in tail ensures key(y) == key2(f(y)) {
        assert y in multiset(tail);
      }
      InsertMap(xs[0], tail, key, f, key2);
      assert m[1..] == MapSeq(xs[1..], f);
    }
  }

  /** In a sorted sequence every element of the first `n` outranks every later one. */
  lemma TakeOutranks<T>(xs: seq<T>, key: T -> real, n: nat, x: T, y: T)
    requires SortedDesc(xs, key) && n <= |xs|
    requires x in xs[..n] && y in multiset(xs) - multiset(xs[..n])
    ensures key(x) >= key(y)
  {
    assert xs == xs[..n] + xs[n..];
    assert y in xs[n..];
    var i :| 0 <= i < n && xs[i] == x;
    var j :| n <= j < |xs| && xs[j] == y;
  }

  /** `xs.sort((a, b) => key(b) - key(a)).slice(0, n)`: the `n` elements with the highest keys. */
  function TopN<T>(xs: seq<T>, key: T -> real, n: nat): seq<T> {
    Take(SortDesc(xs, key), n)
  }

  /** The top `n` are sorted, drawn from `xs`, as many as there are up to `n`, and outrank everything left out. */
  lemma TopNFacts<T>(xs: seq<T>, key: T -> real, n: nat)
    ensures SortedDesc(TopN(xs, key, n), key)
    ensures |TopN(xs, key, n)| == if n < |xs| then n else |xs|
    ensures multiset(TopN(xs, key, n)) <= multiset(xs)
    ensures forall x, y :: x in TopN(xs, key, n) && y in multiset(xs) - multiset(TopN(xs, key, n)) ==> key(x) >= key(y)
  {
    var sorted := SortDesc(xs, key);
    var r := TopN(xs, key, n);
    SortDescSorted(xs, key);
    SortDescPermutation(xs, key);
    assert sorted == r + sorted[|r|..];
    forall x, y | x in r && y in multiset(xs) - multiset(r) ensures key(x) >= key(y) {
      TakeOutranks(sorted, key, |r|, x, y);
    }
  }

  /** The sort is sorted, a permutation, and stable: for every key the elements with that key keep their relative order. */
  lemma SortDescFacts<T>(xs: seq<T>, key: T -> real)
    ensures SortedDesc(SortDesc(xs, key), key)
    ensures multiset(SortDesc(xs, key)) == multiset(xs)
    ensures forall v :: FilterKey(SortDesc(xs, key), key, v) == FilterKey(xs, key, v)
  {
    SortDescSorted(xs, key);
    SortDescPermutation(xs, key);
    forall v ensures FilterKey(SortDesc(xs, key), key, v) == FilterKey(xs, key, v) {
      SortDescStable(xs, key, v);
    }
  }
}
