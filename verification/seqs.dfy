/** Sequence operations with Python's list semantics: negative slices, stable
    sorting and insertion-ordered tallies. */
module Seqs {

  import opened Wrappers

  function Min(a: int, b: int): int { if a <= b then a else b }

  function Max(a: int, b: int): int { if a >= b then a else b }

  /** Python's `s[:n]` for `n >= 0`. */
  function Take<T>(s: seq<T>, n: nat): (r: seq<T>)
    ensures |r| == Min(n, |s|) && r == s[..|r|]
  {
    if n <= |s| then s[..n] else s
  }

  /** Python's `s[-limit:]`: for a positive limit the last `limit` elements,
      for zero the whole list (because `-0 == 0`), and for a negative limit
      everything after the first `-limit` elements. */
  function PyTail<T>(s: seq<T>, limit: int): (r: seq<T>)
    ensures limit > 0 ==> |r| == Min(limit, |s|) && r == s[|s| - |r|..]
    ensures limit == 0 ==> r == s
    ensures limit < 0 ==> |r| == Max(0, |s| + limit) && r == s[|s| - |r|..]
  {
    if limit == 0 then s
    else if limit > 0 then (if limit >= |s| then s else s[|s| - limit..])
    else if -limit >= |s| then []
    else s[-limit..]
  }

  function Count<T(==)>(s: seq<T>, x: T): (n: nat)
    ensures n <= |s|
    ensures n == 0 <==> x !in s
  {
    if s == [] then 0 else (if s[0] == x then 1 else 0) + Count(s[1..], x)
  }

  predicate NoDup<T(==)>(s: seq<T>) {
    forall i, j :: 0 <= i < j < |s| ==> s[i] != s[j]
  }

  /** The elements of `s` other than `x`, in order. */
  function Without<T(==, !new)>(s: seq<T>, x: T): (r: seq<T>)
    ensures x !in r
    ensures forall y :: y in r <==> y in s && y != x
    ensures |r| <= |s|
  {
    if s == [] then []
    else if s[0] == x then Without(s[1..], x)
    else [s[0]] + Without(s[1..], x)
  }

  // ---------------------------------------------------------------------
  // Stable descending sort: Python's `sorted(s, key=key, reverse=True)`.

  predicate Descending<T>(s: seq<T>, key: T -> real) {
    forall i, j :: 0 <= i < j < |s| ==> key(s[i]) >= key(s[j])
  }

  /** Places `x` in front of the first element whose key is not above its own. */
  function Insert<T>(x: T, t: seq<T>, key: T -> real): seq<T> {
    if t == [] || key(t[0]) <= key(x) then [x] + t
    else [t[0]] + Insert(x, t[1..], key)
  }

  function SortDesc<T>(s: seq<T>, key: T -> real): seq<T> {
    if s == [] then [] else Insert(s[0], SortDesc(s[1..], key), key)
  }

  /** The elements of `s` whose key is exactly `k`, in order. */
  function WithKey<T>(s: seq<T>, key: T -> real, k: real): (r: seq<T>)
    ensures |r| <= |s|
  {
    if s == [] then []
    else (if key(s[0]) == k then [s[0]] else []) + WithKey(s[1..], key, k)
  }

  /** Insertion keeps every element and adds `x`. */
  lemma {:induction false} InsertKeeps<T>(x: T, t: seq<T>, key: T -> real)
    ensures multiset(Insert(x, t, key)) == multiset{x} + multiset(t)
    ensures |Insert(x, t, key)| == |t| + 1
    ensures Insert(x, t, key)[0] == x || (t != [] && Insert(x, t, key)[0] == t[0])
    decreases |t|
  {
    if t != [] && key(t[0]) > key(x) {
      InsertKeeps(x, t[1..], key);
      assert t == [t[0]] + t[1..];
    }
  }

  lemma {:induction false} InsertProps<T>(x: T, t: seq<T>, key: T -> real)
    requires Descending(t, key)
    ensures Descending(Insert(x, t, key), key)
    ensures multiset(Insert(x, t, key)) == multiset{x} + multiset(t)
    ensures |Insert(x, t, key)| == |t| + 1
    ensures Insert(x, t, key)[0] == x || (t != [] && Insert(x, t, key)[0] == t[0])
    decreases |t|
  {
    InsertKeeps(x, t, key);
    if t == [] || key(t[0]) <= key(x) {
      var r := [x] + t;
      forall i, j | 0 <= i < j < |r| ensures key(r[i]) >= key(r[j]) {
        if i > 0 {
          assert r[i] == t[i - 1] && r[j] == t[j - 1];
        } else {
          assert r[j] == t[j - 1];
          assert key(t[0]) >= key(t[j - 1]);
        }
      }
    } else {
      var t1 := t[1..];
      assert Descending(t1, key) by {
        forall i, j | 0 <= i < j < |t1| ensures key(t1[i]) >= key(t1[j]) {
          assert t1[i] == t[i + 1] && t1[j] == t[j + 1];
        }
      }
      InsertProps(x, t1, key);
      var u := Insert(x, t1, key);
      var r := [t[0]] + u;
      assert Insert(x, t, key) == r;
      assert key(t[0]) >= key(u[0]) by {
        if |t| > 1 { assert t1[0] == t[1]; }
      }
      forall i, j | 0 <= i < j < |r| ensures key(r[i]) >= key(r[j]) {
        if i > 0 {
          assert r[i] == u[i - 1] && r[j] == u[j - 1];
        } else {
          assert r[j] == u[j - 1];
          assert key(u[0]) >= key(u[j - 1]) || j == 1;
        }
      }
    }
  }

  /** In a descending sequence, every element of a prefix has a key at
      least that of any element the prefix leaves out. */
  lemma TakeDescendingBound<T>(s: seq<T>, n: nat, key: T -> real, x: T)
    requires Descending(s, key) && x in s && x !in Take(s, n)
    ensures forall i :: 0 <= i < |Take(s, n)| ==> key(Take(s, n)[i]) >= key(x)
  {
    var r := Take(s, n);
    var p :| 0 <= p < |s| && s[p] == x;
    forall q | 0 <= q < |r| ensures s[q] != x {
      assert r[q] == s[q];
    }
    assert p >= |r|;
    forall i | 0 <= i < |r| ensures key(r[i]) >= key(x) {
      assert r[i] == s[i];
    }
  }

  /** The sort orders by key, keeps every element, and keeps elements with
      equal keys in their original relative order. */
  lemma {:induction false} SortDescProps<T>(s: seq<T>, key: T -> real)
    ensures Descending(SortDesc(s, key), key)
    ensures multiset(SortDesc(s, key)) == multiset(s)
    ensures |SortDesc(s, key)| == |s|
    ensures forall k :: WithKey(SortDesc(s, key), key, k) == WithKey(s, key, k)
  {
    if s != [] {
      SortDescProps(s[1..], key);
      var t := SortDesc(s[1..], key);
      InsertProps(s[0], t, key);
      assert s == [s[0]] + s[1..];
      forall k ensures WithKey(SortDesc(s, key), key, k) == WithKey(s, key, k) {
        InsertWithKey(s[0], t, key, k);
      }
    }
  }

  lemma {:induction false} InsertWithKey<T>(x: T, t: seq<T>, key: T -> real, k: real)
    ensures WithKey(Insert(x, t, key), key, k)
         == (if key(x) == k then [x] else []) + WithKey(t, key, k)
    decreases |t|
  {
    if t == [] || key(t[0]) <= key(x) {
      assert Insert(x, t, key)[1..] == t;
    } else {
      InsertWithKey(x, t[1..], key, k);
      assert Insert(x, t, key)[1..] == Insert(x, t[1..], key);
      assert t[0] == Insert(x, t, key)[0];
      if key(x) == k {
        assert key(t[0]) != k;
      }
    }
  }

  // ---------------------------------------------------------------------
  // Insertion-ordered tallies: the dict `d[k] = d.get(k, 0) + 1` builds.

  function TallyKeys<K>(t: seq<(K, nat)>): (r: seq<K>)
    ensures |r| == |t| && forall i :: 0 <= i < |t| ==> r[i] == t[i].0
  {
    if t == [] then [] else [t[0].0] + TallyKeys(t[1..])
  }

  /** `d[k] = d.get(k, 0) + 1`: bumps an existing key in place, or appends a
      new key with count 1. */
  function Bump<K(==)>(t: seq<(K, nat)>, k: K): seq<(K, nat)> {
    if t == [] then [(k, 1)]
    else if t[0].0 == k then [(k, t[0].1 + 1)] + t[1..]
    else [t[0]] + Bump(t[1..], k)
  }

  function Tally<K(==)>(s: seq<K>): seq<(K, nat)>
    decreases |s|
  {
    if s == [] then [] else Bump(Tally(s[..|s| - 1]), s[|s| - 1])
  }

  /** The keys of `s` in order of first occurrence. */
  function Distinct<K(==)>(s: seq<K>): seq<K>
    decreases |s|
  {
    if s == [] then []
    else
      var d := Distinct(s[..|s| - 1]);
      if s[|s| - 1] in d then d else d + [s[|s| - 1]]
  }

  function CountOf<K(==)>(t: seq<(K, nat)>, k: K): nat {
    if t == [] then 0 else if t[0].0 == k then t[0].1 else CountOf(t[1..], k)
  }

  lemma {:induction false} BumpProps<K>(t: seq<(K, nat)>, k: K)
    ensures TallyKeys(Bump(t, k)) == if k in TallyKeys(t) then TallyKeys(t) else TallyKeys(t) + [k]
    ensures CountOf(Bump(t, k), k) == CountOf(t, k) + 1
    ensures forall j :: j != k ==> CountOf(Bump(t, k), j) == CountOf(t, j)
  {
    if t != [] && t[0].0 != k {
      BumpProps(t[1..], k);
      assert TallyKeys(t) == [t[0].0] + TallyKeys(t[1..]);
    }
  }

  /** A tally's keys are the distinct elements, in order of first occurrence. */
  lemma {:induction false} TallyKeysDistinct<K>(s: seq<K>)
    ensures TallyKeys(Tally(s)) == Distinct(s)
    decreases |s|
  {
    if s != [] {
      TallyKeysDistinct(s[..|s| - 1]);
      BumpProps(Tally(s[..|s| - 1]), s[|s| - 1]);
    }
  }

  /** A tally's count for a key is the number of times it occurs. */
  lemma {:induction false} TallyCounts<K>(s: seq<K>, k: K)
    ensures CountOf(Tally(s), k) == Count(s, k)
    decreases |s|
  {
    if s != [] {
      TallyCounts(s[..|s| - 1], k);
      BumpProps(Tally(s[..|s| - 1]), s[|s| - 1]);
      CountSnoc(s[..|s| - 1], s[|s| - 1], k);
      assert s == s[..|s| - 1] + [s[|s| - 1]];
    }
  }

  /** A tally lists each key once, in order of first occurrence, with the
      number of times it occurs. */
  lemma TallyProps<K>(s: seq<K>)
    ensures TallyKeys(Tally(s)) == Distinct(s)
    ensures forall k :: CountOf(Tally(s), k) == Count(s, k)
  {
    TallyKeysDistinct(s);
    forall k ensures CountOf(Tally(s), k) == Count(s, k) {
      TallyCounts(s, k);
    }
  }

  /** Each entry of a tally whose keys are distinct holds that key's count. */
  lemma {:induction false} CountOfEntry<K>(t: seq<(K, nat)>, i: nat)
    requires i < |t| && NoDup(TallyKeys(t))
    ensures CountOf(t, t[i].0) == t[i].1
  {
    if i > 0 {
      assert TallyKeys(t)[0] != TallyKeys(t)[i];
      assert TallyKeys(t[1..]) == TallyKeys(t)[1..];
      CountOfEntry(t[1..], i - 1);
    }
  }

  /** Every entry of `Tally(s)` pairs an element of `s` with the number of
      times it occurs, and there is one entry per distinct element. */
  lemma TallyEntries<K>(s: seq<K>)
    ensures |Tally(s)| == |Distinct(s)|
    ensures forall i :: 0 <= i < |Tally(s)| ==> Tally(s)[i].0 in s && Tally(s)[i].1 == Count(s, Tally(s)[i].0)
    ensures forall k :: k in s ==> exists i :: 0 <= i < |Tally(s)| && Tally(s)[i].0 == k
  {
    TallyProps(s);
    DistinctProps(s);
    var t := Tally(s);
    forall i | 0 <= i < |t| ensures t[i].0 in s && t[i].1 == Count(s, t[i].0) {
      assert TallyKeys(t)[i] in Distinct(s);
      CountOfEntry(t, i);
    }
    forall k | k in s ensures exists i :: 0 <= i < |t| && t[i].0 == k {
      assert k in TallyKeys(t);
    }
  }

  /** Dropping a prefix commutes with appending an element. */
  lemma {:induction false} DropSnoc<T>(p: seq<T>, x: T, j: nat)
    requires j <= |p|
    ensures (p + [x])[j..] == p[j..] + [x]
  {}

  lemma {:induction false} CountSnoc<T>(p: seq<T>, x: T, y: T)
    ensures Count(p + [x], y) == Count(p, y) + (if x == y then 1 else 0)
  {
    if p != [] {
      CountSnoc(p[1..], x, y);
      assert (p + [x])[1..] == p[1..] + [x];
    }
  }

  lemma {:induction false} DistinctProps<K>(s: seq<K>)
    ensures NoDup(Distinct(s))
    ensures forall k :: k in Distinct(s) <==> k in s
    decreases |s|
  {
    if s != [] {
      var p := s[..|s| - 1];
      DistinctProps(p);
      assert s == p + [s[|s| - 1]];
    }
  }

  // ---------------------------------------------------------------------
  // Association lists: Python dicts whose iteration order matters.

  function Keys<K, V>(s: seq<(K, V)>): (r: seq<K>)
    ensures |r| == |s| && forall i :: 0 <= i < |s| ==> r[i] == s[i].0
  {
    if s == [] then [] else [s[0].0] + Keys(s[1..])
  }

  /** Two different entries of a list with distinct keys have different keys. */
  lemma DistinctKeysAt<K, V>(s: seq<(K, V)>, a: nat, b: nat)
    requires NoDup(Keys(s)) && a < |s| && b < |s| && a != b
    ensures s[a].0 != s[b].0
  {
    if a < b { assert Keys(s)[a] != Keys(s)[b]; } else { assert Keys(s)[b] != Keys(s)[a]; }
  }

  /** The value stored under `k`; the first entry wins, as in a dict whose
      keys are distinct. */
  function Lookup<K(==), V>(s: seq<(K, V)>, k: K): (r: Option<V>)
    ensures r.Some? <==> k in Keys(s)
    ensures r.Some? ==> exists i :: 0 <= i < |s| && s[i] == (k, r.value)
  {
    if s == [] then None
    else if s[0].0 == k then Some(s[0].1)
    else
      var r := Lookup(s[1..], k);
      assert r.Some? ==> exists i :: 0 <= i < |s[1..]| && s[1..][i] == (k, r.value);
      assert r.Some? ==> exists i :: 0 <= i < |s| && s[i] == (k, r.value) by {
        if r.Some? {
          var i :| 0 <= i < |s[1..]| && s[1..][i] == (k, r.value);
          assert s[i + 1] == (k, r.value);
        }
      }
      assert Keys(s) == [s[0].0] + Keys(s[1..]);
      r
  }

  /** The present results of `f` over `s`, in order. */
  function FilterMap<T, U>(s: seq<T>, f: T -> Option<U>): (r: seq<U>)
    ensures |r| <= |s|
    ensures forall k :: 0 <= k < |r| ==> exists i :: 0 <= i < |s| && f(s[i]) == Some(r[k])
    ensures forall i :: 0 <= i < |s| && f(s[i]).Some? ==> f(s[i]).value in r
  {
    if s == [] then []
    else
      var rest := FilterMap(s[1..], f);
      var r := (if f(s[0]).Some? then [f(s[0]).value] else []) + rest;
      assert forall i :: 1 <= i < |s| ==> s[i] == s[1..][i - 1];
      assert forall k :: 0 <= k < |r| ==> exists i :: 0 <= i < |s| && f(s[i]) == Some(r[k]) by {
        forall k | 0 <= k < |r| ensures exists i :: 0 <= i < |s| && f(s[i]) == Some(r[k]) {
          if f(s[0]).Some? && k == 0 {
            assert f(s[0]) == Some(r[k]);
          } else {
            var k' := if f(s[0]).Some? then k - 1 else k;
            assert r[k] == rest[k'];
            var i :| 0 <= i < |s[1..]| && f(s[1..][i]) == Some(rest[k']);
            assert f(s[i + 1]) == Some(r[k]);
          }
        }
      }
      r
  }

  /** The elements of `s` satisfying `p`, in order. */
  function Filter<T>(s: seq<T>, p: T -> bool): (r: seq<T>)
    ensures |r| <= |s|
    ensures forall x :: x in r ==> x in s && p(x)
    ensures forall i :: 0 <= i < |s| && p(s[i]) ==> s[i] in r
  {
    if s == [] then []
    else
      var rest := Filter(s[1..], p);
      assert forall i :: 1 <= i < |s| ==> s[i] == s[1..][i - 1];
      (if p(s[0]) then [s[0]] else []) + rest
  }

  /** Whether entry `i` is the last one with key `k`. */
  predicate IsLastKey<K(==), V>(s: seq<(K, V)>, i: int, k: K) {
    0 <= i < |s| && s[i].0 == k && forall j :: i < j < |s| ==> s[j].0 != k
  }

  /** A dict filled from the entries in order (`d[k] = v` for each): a later
      entry overwrites an earlier one with the same key. */
  function ToMap<K(!new), V>(s: seq<(K, V)>): (m: map<K, V>)
    ensures forall k :: k in m <==> k in Keys(s)
    decreases |s|
  {
    if s == [] then map[]
    else
      var prefix := s[..|s| - 1];
      assert Keys(s) == Keys(prefix) + [s[|s| - 1].0];
      ToMap(prefix)[s[|s| - 1].0 := s[|s| - 1].1]
  }

  /** The value stored under a key is the one of its last entry. */
  lemma {:induction false} ToMapLastWins<K(!new), V>(s: seq<(K, V)>, i: int)
    requires 0 <= i < |s| && IsLastKey(s, i, s[i].0)
    ensures ToMap(s)[s[i].0] == s[i].1
    decreases |s|
  {
    var prefix := s[..|s| - 1];
    if i < |s| - 1 {
      assert prefix[i] == s[i];
      assert IsLastKey(prefix, i, prefix[i].0);
      ToMapLastWins(prefix, i);
    }
  }

  /** The last entry at or after `i` with the key of entry `i`. */
  function LastKeyIndex<K(==), V>(s: seq<(K, V)>, i: nat): (k: nat)
    requires i < |s|
    ensures i <= k && IsLastKey(s, k, s[i].0)
    decreases |s| - i
  {
    if exists j :: i < j < |s| && s[j].0 == s[i].0 then
      var j :| i < j < |s| && s[j].0 == s[i].0;
      LastKeyIndex(s, j)
    else i
  }

  /** Every stored value comes from the last entry with its key. */
  lemma ToMapValue<K(!new), V>(s: seq<(K, V)>, k: K)
    requires k in ToMap(s)
    ensures exists i :: IsLastKey(s, i, k) && ToMap(s)[k] == s[i].1
  {
    var i :| 0 <= i < |s| && s[i].0 == k;
    var last := LastKeyIndex(s, i);
    ToMapLastWins(s, last);
  }

  /** Filtering a list with distinct keys keeps its keys distinct. */
  lemma {:induction false} FilterKeysNoDup<K, V>(s: seq<(K, V)>, p: ((K, V)) -> bool)
    requires NoDup(Keys(s))
    ensures NoDup(Keys(Filter(s, p)))
  {
    if s != [] {
      assert NoDup(Keys(s[1..])) by {
        forall i, j | 0 <= i < j < |s[1..]| ensures Keys(s[1..])[i] != Keys(s[1..])[j] {
          assert Keys(s)[i + 1] == s[i + 1].0;
        }
      }
      FilterKeysNoDup(s[1..], p);
      var rest := Filter(s[1..], p);
      if p(s[0]) {
        var r := [s[0]] + rest;
        forall i, j | 0 <= i < j < |r| ensures Keys(r)[i] != Keys(r)[j] {
          if i == 0 {
            assert r[j] in s[1..];
            var k :| 0 <= k < |s[1..]| && s[1..][k] == r[j];
            assert Keys(s)[k + 1] == r[j].0;
            assert Keys(s)[0] == s[0].0;
          } else {
            assert Keys(r)[i] == Keys(rest)[i - 1] && Keys(r)[j] == Keys(rest)[j - 1];
          }
        }
      }
    }
  }
}
