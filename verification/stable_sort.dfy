/** A stable sort into descending key order, the behaviour of
    `Array.prototype.sort((a, b) => key(b) - key(a))` (the ECMAScript
    specification requires `sort` to be stable), and the "take the first n"
    cut that follows it in both ranking paths. */
module StableSort {
  import opened Seqs

  predicate SortedDesc<T>(s: seq<T>, key: T -> real)
  {
    forall i, j :: 0 <= i < j < |s| ==> key(s[i]) >= key(s[j])
  }

  /** The elements of `s` whose key is `k`, in the order in which they occur.
      Two sequences with equal `KeyClass` for every `k` list the elements of
      each tie group in the same order. */
  function KeyClass<T>(s: seq<T>, key: T -> real, k: real): seq<T>
  {
    if |s| == 0 then []
    else (if key(s[0]) == k then [s[0]] else []) + KeyClass(s[1..], key, k)
  }

  lemma {:induction false} KeyClassAppend<T>(s: seq<T>, t: seq<T>, key: T -> real, k: real)
    ensures KeyClass(s + t, key, k) == KeyClass(s, key, k) + KeyClass(t, key, k)
    decreases |s|
  {
    if |s| > 0 {
      assert (s + t)[1..] == s[1..] + t;
      KeyClassAppend(s[1..], t, key, k);
    } else {
      assert s + t == t;
    }
  }

  /** Cutting a sequence keeps, of every tie group, an initial part. */
  lemma KeyClassOfPrefix<T>(s: seq<T>, n: nat, key: T -> real, k: real)
    requires n <= |s|
    ensures KeyClass(s[..n], key, k) <= KeyClass(s, key, k)
  {
    assert s == s[..n] + s[n..];
    KeyClassAppend(s[..n], s[n..], key, k);
  }

  /** Places `x` in front of the first element whose key does not exceed
      its own, so an element inserted later (one that came earlier in the
      input) ends up ahead of its equals. */
  function Insert<T>(x: T, s: seq<T>, key: T -> real): seq<T>
  {
    if |s| == 0 || key(s[0]) <= key(x) then [x] + s
    else [s[0]] + Insert(x, s[1..], key)
  }

  lemma {:induction false} InsertMultiset<T>(x: T, s: seq<T>, key: T -> real)
    ensures multiset(Insert(x, s, key)) == multiset(s) + multiset{x}
    decreases |s|
  {
    if |s| > 0 && key(s[0]) > key(x) {
      InsertMultiset(x, s[1..], key);
      assert s == [s[0]] + s[1..];
    }
  }

  /** Inserting below a bound keeps every key below it. */
  lemma {:induction false} InsertBelow<T>(x: T, s: seq<T>, key: T -> real, b: real)
    requires key(x) <= b
    requires forall i :: 0 <= i < |s| ==> key(s[i]) <= b
    ensures forall i :: 0 <= i < |Insert(x, s, key)| ==> key(Insert(x, s, key)[i]) <= b
    decreases |s|
  {
    if |s| > 0 && key(s[0]) > key(x) {
      InsertBelow(x, s[1..], key, b);
      var rest := Insert(x, s[1..], key);
      assert Insert(x, s, key) == [s[0]] + rest;
    }
  }

  lemma SortedCons<T>(h: T, t: seq<T>, key: T -> real)
    requires SortedDesc(t, key)
    requires forall i :: 0 <= i < |t| ==> key(t[i]) <= key(h)
    ensures SortedDesc([h] + t, key)
  {
    var r := [h] + t;
    forall i, j | 0 <= i < j < |r|
      ensures key(r[i]) >= key(r[j])
    {
      assert r[j] == t[j - 1];
      if i > 0 {
        assert r[i] == t[i - 1];
      }
    }
  }

  lemma {:induction false} InsertSorted<T>(x: T, s: seq<T>, key: T -> real)
    requires SortedDesc(s, key)
    ensures SortedDesc(Insert(x, s, key), key)
    decreases |s|
  {
    if |s| == 0 || key(s[0]) <= key(x) {
      SortedCons(x, s, key);
    } else {
      var t := s[1..];
      assert SortedDesc(t, key);
      InsertSorted(x, t, key);
      assert forall i :: 0 <= i < |t| ==> key(t[i]) <= key(s[0]) by {
        forall i | 0 <= i < |t| ensures key(t[i]) <= key(s[0]) {
          assert t[i] == s[i + 1];
        }
      }
      InsertBelow(x, t, key, key(s[0]));
      SortedCons(s[0], Insert(x, t, key), key);
    }
  }

  lemma KeyClassCons<T>(h: T, t: seq<T>, key: T -> real, k: real)
    ensures KeyClass([h] + t, key, k) == (if key(h) == k then [h] else []) + KeyClass(t, key, k)
  {
    assert ([h] + t)[0] == h;
    assert ([h] + t)[1..] == t;
  }

  /** Inserting `x` adds it to its own tie group, in front, and leaves every
      other tie group alone. */
  lemma {:induction false} InsertKeyClass<T>(x: T, s: seq<T>, key: T -> real, k: real)
    ensures KeyClass(Insert(x, s, key), key, k)
         == (if key(x) == k then [x] else []) + KeyClass(s, key, k)
    decreases |s|
  {
    var xs := if key(x) == k then [x] else [];
    if |s| == 0 || key(s[0]) <= key(x) {
      KeyClassCons(x, s, key, k);
    } else {
      var rest := Insert(x, s[1..], key);
      var hd := if key(s[0]) == k then [s[0]] else [];
      InsertKeyClass(x, s[1..], key, k);
      KeyClassCons(s[0], rest, key, k);
      KeyClassCons(s[0], s[1..], key, k);
      assert s == [s[0]] + s[1..];
      assert hd != [] ==> xs == [];
      calc {
        KeyClass(Insert(x, s, key), key, k);
        KeyClass([s[0]] + rest, key, k);
        hd + KeyClass(rest, key, k);
        hd + (xs + KeyClass(s[1..], key, k));
        xs + (hd + KeyClass(s[1..], key, k));
        xs + KeyClass(s, key, k);
      }
    }
  }

  /** Stable insertion sort into descending key order. */
  function SortDesc<T>(s: seq<T>, key: T -> real): (r: seq<T>)
    ensures SortedDesc(r, key)
    ensures multiset(r) == multiset(s)
  {
    if |s| == 0 then []
    else
      var rest := SortDesc(s[1..], key);
      InsertSorted(s[0], rest, key);
      InsertMultiset(s[0], rest, key);
      assert s == [s[0]] + s[1..];
      Insert(s[0], rest, key)
  }

  /** Stability: every tie group keeps its input order. */
  lemma {:induction false} SortDescStable<T>(s: seq<T>, key: T -> real, k: real)
    ensures KeyClass(SortDesc(s, key), key, k) == KeyClass(s, key, k)
    decreases |s|
  {
    if |s| > 0 {
      SortDescStable(s[1..], key, k);
      InsertKeyClass(s[0], SortDesc(s[1..], key), key, k);
    }
  }

  /** A prefix of a descending sequence never passes over an element with a
      strictly higher key than one it keeps. */
  lemma SortedPrefixKeepsBest<T>(s: seq<T>, sorted: seq<T>, r: seq<T>, key: T -> real)
    requires multiset(sorted) == multiset(s)
    requires SortedDesc(sorted, key)
    requires r <= sorted
    ensures forall x, i :: x in s && 0 <= i < |r| && key(x) > key(r[i]) ==> x in r
  {
    forall x, i | x in s && 0 <= i < |r| && key(x) > key(r[i])
      ensures x in r
    {
      assert x in multiset(s);
      assert x in multiset(sorted);
      var j :| 0 <= j < |sorted| && sorted[j] == x;
      assert r[i] == sorted[i];
      assert j < |r|;
      assert r[j] == x;
    }
  }

  /** Number of destinations both pages show: the `slice(0, 5)` after the
      sort (script.js and js/planner.js alike). */
  const TopCount: nat := 5

  /** The first `n` entries of the stable descending sort of `s`: sorted,
      drawn from `s`, as long as possible, never passing over an element with a
      strictly higher key, and keeping an initial part of every tie group. */
  function TopN<T>(s: seq<T>, key: T -> real, n: nat): (r: seq<T>)
    ensures |r| == Min(n, |s|)
    ensures SortedDesc(r, key)
    ensures multiset(r) <= multiset(s)
    ensures forall x, i :: x in s && 0 <= i < |r| && key(x) > key(r[i]) ==> x in r
    ensures forall k :: KeyClass(r, key, k) <= KeyClass(s, key, k)
  {
    var sorted := SortDesc(s, key);
    var r := Take(sorted, n);
    assert |sorted| == |multiset(sorted)| == |multiset(s)| == |s|;
    assert sorted == r + sorted[|r|..];
    assert multiset(sorted) == multiset(r) + multiset(sorted[|r|..]);
    SortedPrefixKeepsBest(s, sorted, r, key);
    assert forall k :: KeyClass(r, key, k) <= KeyClass(s, key, k) by {
      forall k
        ensures KeyClass(r, key, k) <= KeyClass(s, key, k)
      {
        KeyClassOfPrefix(sorted, |r|, key, k);
        SortDescStable(s, key, k);
      }
    }
    r
  }
}
