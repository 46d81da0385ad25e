/** The three `Array.prototype` methods the screens use: `filter`, `find` and a stable `sort`. */
module JsArrays {
  import opened JsValues

  /** `r` keeps some of the elements of `s`, in the order they have in `s`. */
  ghost predicate IsSubsequence<T>(r: seq<T>, s: seq<T>)
    decreases |s|
  {
    r == [] || (s != [] && ((r[0] == s[0] && IsSubsequence(r[1..], s[1..])) || IsSubsequence(r, s[1..])))
  }

  /** Adding elements in front of `s` keeps every subsequence of `s` a subsequence. */
  lemma {:induction false} SubsequenceOfLonger<T>(r: seq<T>, prefix: seq<T>, s: seq<T>)
    requires IsSubsequence(r, s)
    ensures IsSubsequence(r, prefix + s)
    decreases |prefix|
  {
    if prefix == [] {
      assert prefix + s == s;
    } else {
      SubsequenceOfLonger(r, prefix[1..], s);
      assert (prefix + s)[1..] == prefix[1..] + s;
    }
  }

  /** Subsequences of two sequences concatenate to a subsequence of their concatenation. */
  lemma {:induction false} SubsequenceConcat<T>(a: seq<T>, b: seq<T>, c: seq<T>, d: seq<T>)
    requires IsSubsequence(a, b) && IsSubsequence(c, d)
    ensures IsSubsequence(a + c, b + d)
    decreases |b|
  {
    if a == [] {
      assert a + c == c;
      SubsequenceOfLonger(c, b, d);
    } else {
      assert b != [];
      assert (b + d)[1..] == b[1..] + d;
      if a[0] == b[0] && IsSubsequence(a[1..], b[1..]) {
        SubsequenceConcat(a[1..], b[1..], c, d);
        assert (a + c)[0] == (b + d)[0] && (a + c)[1..] == a[1..] + c;
      } else {
        SubsequenceConcat(a, b[1..], c, d);
      }
    }
  }

  lemma {:induction false} SubsequenceMembers<T>(r: seq<T>, s: seq<T>, x: T)
    requires IsSubsequence(r, s) && x in r
    ensures x in s
    decreases |s|
  {
    if r[0] == s[0] && IsSubsequence(r[1..], s[1..]) {
      if x != r[0] {
        SubsequenceMembers(r[1..], s[1..], x);
      }
    } else {
      SubsequenceMembers(r, s[1..], x);
    }
  }

  /** A subsequence of a sequence whose elements have pairwise different `f` has them too. */
  lemma {:induction false} SubsequenceKeepsDistinct<T, K>(r: seq<T>, s: seq<T>, f: T -> K)
    requires IsSubsequence(r, s)
    requires forall i, j :: 0 <= i < j < |s| ==> f(s[i]) != f(s[j])
    ensures forall i, j :: 0 <= i < j < |r| ==> f(r[i]) != f(r[j])
    decreases |s|
  {
    if r != [] {
      assert forall i, j :: 0 <= i < j < |s[1..]| ==> f(s[1..][i]) != f(s[1..][j]) by {
        forall i, j | 0 <= i < j < |s[1..]| ensures f(s[1..][i]) != f(s[1..][j]) {
          assert s[1..][i] == s[i + 1] && s[1..][j] == s[j + 1];
        }
      }
      if r[0] == s[0] && IsSubsequence(r[1..], s[1..]) {
        SubsequenceKeepsDistinct(r[1..], s[1..], f);
        forall i, j | 0 <= i < j < |r| ensures f(r[i]) != f(r[j]) {
          if i == 0 {
            assert r[j] == r[1..][j - 1];
            SubsequenceMembers(r[1..], s[1..], r[j]);
            var m :| 0 <= m < |s[1..]| && s[1..][m] == r[j];
            assert s[m + 1] == r[j];
          } else {
            assert r[i] == r[1..][i - 1] && r[j] == r[1..][j - 1];
          }
        }
      } else {
        SubsequenceKeepsDistinct(r, s[1..], f);
      }
    }
  }

  /** `s.filter(keep)`: exactly the elements that pass, every occurrence of each, in their original order. */
  function Filter<T(==)>(s: seq<T>, keep: T -> bool): (r: seq<T>)
    ensures |r| <= |s|
    ensures forall x :: x in r ==> x in s && keep(x)
    ensures forall i :: 0 <= i < |s| && keep(s[i]) ==> s[i] in r
    ensures forall x | x in s :: multiset(r)[x] == if keep(x) then multiset(s)[x] else 0
    ensures IsSubsequence(r, s)
    decreases |s|
  {
    if s == [] then []
    else
      var rest := Filter(s[1..], keep);
      assert s == [s[0]] + s[1..];
      if keep(s[0]) then
        var r := [s[0]] + rest;
        assert r[0] == s[0] && r[1..] == rest;
        r
      else rest
  }

  /** Unfolding `Filter` on a sequence with a known first element. */
  lemma FilterCons<T>(x: T, t: seq<T>, keep: T -> bool)
    ensures Filter([x] + t, keep) == (if keep(x) then [x] else []) + Filter(t, keep)
  {
    assert ([x] + t)[0] == x && ([x] + t)[1..] == t;
  }

  /** A filter that every element passes keeps the whole sequence. */
  lemma {:induction false} FilterKeepsAll<T>(s: seq<T>, keep: T -> bool)
    requires forall i :: 0 <= i < |s| ==> keep(s[i])
    ensures Filter(s, keep) == s
    decreases |s|
  {
    if s != [] {
      FilterKeepsAll(s[1..], keep);
      assert s == [s[0]] + s[1..];
    }
  }

  /** Filters with tests that agree on every element keep the same elements. */
  lemma {:induction false} FilterExtensional<T>(s: seq<T>, f: T -> bool, g: T -> bool)
    requires forall x :: f(x) == g(x)
    ensures Filter(s, f) == Filter(s, g)
    decreases |s|
  {
    if s != [] {
      FilterExtensional(s[1..], f, g);
    }
  }

  /** `i` is the position of the first element of `s` that satisfies `p`. */
  ghost predicate IsFirst<T>(s: seq<T>, i: int, p: T -> bool) {
    0 <= i < |s| && p(s[i]) && forall j :: 0 <= j < i ==> !p(s[j])
  }

  /** `s.find(keep)`: the first element that passes, or `undefined` when none does. */
  function Find<T>(s: seq<T>, keep: T -> bool): (r: Option<T>)
    ensures r.None? <==> forall i :: 0 <= i < |s| ==> !keep(s[i])
    ensures r.Some? ==> exists i :: IsFirst(s, i, keep) && s[i] == r.value
    decreases |s|
  {
    if s == [] then None
    else if keep(s[0]) then
      assert IsFirst(s, 0, keep);
      Some(s[0])
    else
      var r := Find(s[1..], keep);
      if r.Some? then
        assert exists i :: IsFirst(s, i, keep) && s[i] == r.value by {
          var i :| IsFirst(s[1..], i, keep) && s[1..][i] == r.value;
          assert IsFirst(s, i + 1, keep);
        }
        r
      else
        assert forall i :: 1 <= i < |s| ==> s[i] == s[1..][i - 1];
        r
  }

  /** Every element's key is at least the key of every later element. */
  ghost predicate NonIncreasing<T>(s: seq<T>, key: T -> int) {
    forall i, j :: 0 <= i < j < |s| ==> key(s[i]) >= key(s[j])
  }

  /** The elements of `s` whose key is `k`, in order: the trace of `s` that a stable sort must keep. */
  function WithKey<T>(s: seq<T>, key: T -> int, k: int): seq<T>
    decreases |s|
  {
    if s == [] then [] else (if key(s[0]) == k then [s[0]] else []) + WithKey(s[1..], key, k)
  }

  lemma {:induction false} WithKeyMembers<T>(s: seq<T>, key: T -> int, k: int, y: T)
    requires y in WithKey(s, key, k)
    ensures y in s && key(y) == k
    decreases |s|
  {
    if y != s[0] || key(s[0]) != k {
      WithKeyMembers(s[1..], key, k, y);
    }
  }

  /** The stable-sort trace is the filter by key. */
  lemma {:induction false} WithKeyIsFilter<T>(s: seq<T>, key: T -> int, k: int)
    ensures WithKey(s, key, k) == Filter(s, x => key(x) == k)
    decreases |s|
  {
    if s != [] {
      WithKeyIsFilter(s[1..], key, k);
    }
  }

  /** A stable arrangement of `s`: each group of equal keys keeps its relative order from `s`. */
  ghost predicate StableWith<T>(r: seq<T>, s: seq<T>, key: T -> int) {
    forall k :: WithKey(r, key, k) == WithKey(s, key, k)
  }

  lemma WithKeyCons<T>(x: T, t: seq<T>, key: T -> int, k: int)
    ensures WithKey([x] + t, key, k) == (if key(x) == k then [x] else []) + WithKey(t, key, k)
  {
    assert ([x] + t)[0] == x && ([x] + t)[1..] == t;
  }

  /** Places `x` in front of the first element of `t` whose key is not larger than `x`'s. On a
      non-increasing `t` this puts `x` before all elements with an equal key. */
  function Insert<T(==)>(x: T, t: seq<T>, key: T -> int): (r: seq<T>)
    requires NonIncreasing(t, key)
    ensures multiset(r) == multiset(t) + multiset{x}
    ensures x in r && (forall y :: y in t ==> y in r) && (forall y :: y in r ==> y == x || y in t)
    ensures NonIncreasing(r, key)
    decreases |t|
  {
    if t == [] || key(x) >= key(t[0]) then
      var r := [x] + t;
      assert forall j :: 0 < j < |r| ==> r[j] == t[j - 1];
      r
    else
      var rest := Insert(x, t[1..], key);
      assert t == [t[0]] + t[1..];
      var r := [t[0]] + rest;
      assert forall y :: y in rest ==> key(t[0]) >= key(y) by {
        forall y | y in rest ensures key(t[0]) >= key(y) {
          if y != x {
            var j :| 0 <= j < |t[1..]| && t[1..][j] == y;
            assert t[j + 1] == y;
          }
        }
      }
      assert forall j :: 0 < j < |r| ==> r[j] == rest[j - 1];
      assert forall j :: 0 < j < |r| ==> r[j] in rest;
      r
  }

  lemma NonIncreasingTail<T>(s: seq<T>, key: T -> int)
    requires NonIncreasing(s, key) && s != []
    ensures NonIncreasing(s[1..], key)
  {
    assert forall i :: 0 <= i < |s[1..]| ==> s[1..][i] == s[i + 1];
  }

  /** An element whose key is larger than `x`'s can move in front of `x` without changing any group of equal keys. */
  lemma PassingLargerKeyIsStable<T>(h: T, x: T, rest: seq<T>, t: seq<T>, key: T -> int, k: int)
    requires key(x) < key(h)
    requires WithKey(rest, key, k) == (if key(x) == k then [x] else []) + WithKey(t, key, k)
    ensures WithKey([h] + rest, key, k) == (if key(x) == k then [x] else []) + WithKey([h] + t, key, k)
  {
    WithKeyCons(h, rest, key, k);
    WithKeyCons(h, t, key, k);
  }

  /** Inserting behind a first element with a larger key keeps that element's group intact. */
  lemma InsertBehindIsStable<T>(x: T, t: seq<T>, key: T -> int, k: int)
    requires NonIncreasing(t, key) && t != [] && key(x) < key(t[0])
    requires NonIncreasing(t[1..], key)
    requires WithKey(Insert(x, t[1..], key), key, k) == (if key(x) == k then [x] else []) + WithKey(t[1..], key, k)
    ensures WithKey(Insert(x, t, key), key, k) == (if key(x) == k then [x] else []) + WithKey(t, key, k)
  {
    var tail := t[1..];
    assert Insert(x, t, key) == [t[0]] + Insert(x, tail, key);
    WithKeyCons(t[0], tail, key, k);
    PassingLargerKeyIsStable(t[0], x, Insert(x, tail, key), tail, key, k);
  }

  /** Inserting `x` into a non-increasing sequence puts it in front of every element with its key. */
  lemma {:induction false} InsertIsStable<T>(x: T, t: seq<T>, key: T -> int, k: int)
    requires NonIncreasing(t, key)
    ensures WithKey(Insert(x, t, key), key, k) == (if key(x) == k then [x] else []) + WithKey(t, key, k)
    decreases |t|
  {
    if t == [] || key(x) >= key(t[0]) {
      assert Insert(x, t, key) == [x] + t;
      WithKeyCons(x, t, key, k);
    } else {
      NonIncreasingTail(t, key);
      InsertIsStable(x, t[1..], key, k);
      InsertBehindIsStable(x, t, key, k);
    }
  }

  /** `[...s].sort((a, b) => key(b) - key(a))`: a copy of `s` sorted by descending key, which keeps
      equal keys in their original order, since ECMAScript 2019 requires `Array.prototype.sort` to be stable. */
  function SortDescending<T(==)>(s: seq<T>, key: T -> int): (r: seq<T>)
    ensures multiset(r) == multiset(s)
    ensures NonIncreasing(r, key)
    ensures StableWith(r, s, key)
    decreases |s|
  {
    if s == [] then []
    else
      var rest := SortDescending(s[1..], key);
      var r := Insert(s[0], rest, key);
      assert s == [s[0]] + s[1..];
      assert StableWith(r, s, key) by {
        forall k ensures WithKey(r, key, k) == WithKey(s, key, k) {
          InsertIsStable(s[0], rest, key, k);
          WithKeyCons(s[0], s[1..], key, k);
        }
      }
      r
  }

  lemma HeadIsMaximal<T>(s: seq<T>, key: T -> int, y: T)
    requires NonIncreasing(s, key) && y in s
    ensures key(s[0]) >= key(y)
  {
    var j :| 0 <= j < |s| && s[j] == y;
  }

  lemma WithKeyOfHead<T>(s: seq<T>, key: T -> int)
    requires s != []
    ensures WithKey(s, key, key(s[0])) != []
  {
  }

  /** A non-increasing, stable arrangement is unique: two of them that agree on every group of equal
      keys are the same sequence. */
  lemma {:induction false} StableSortIsUnique<T>(r1: seq<T>, r2: seq<T>, key: T -> int)
    requires NonIncreasing(r1, key) && NonIncreasing(r2, key)
    requires forall k :: WithKey(r1, key, k) == WithKey(r2, key, k)
    ensures r1 == r2
    decreases |r1|
  {
    if r1 == [] && r2 == [] {
      return;
    }
    if r1 == [] {
      WithKeyOfHead(r2, key);
      assert false;
    }
    if r2 == [] {
      WithKeyOfHead(r1, key);
      assert false;
    }
    var m1, m2 := key(r1[0]), key(r2[0]);
    assert r1[0] in WithKey(r2, key, m1);
    WithKeyMembers(r2, key, m1, r1[0]);
    HeadIsMaximal(r2, key, r1[0]);
    assert r2[0] in WithKey(r1, key, m2);
    WithKeyMembers(r1, key, m2, r2[0]);
    HeadIsMaximal(r1, key, r2[0]);
    assert r1 == [r1[0]] + r1[1..] && r2 == [r2[0]] + r2[1..];
    WithKeyCons(r1[0], r1[1..], key, m1);
    WithKeyCons(r2[0], r2[1..], key, m1);
    assert r1[0] == WithKey(r1, key, m1)[0] == WithKey(r2, key, m1)[0] == r2[0];
    forall k ensures WithKey(r1[1..], key, k) == WithKey(r2[1..], key, k) {
      WithKeyCons(r1[0], r1[1..], key, k);
      WithKeyCons(r2[0], r2[1..], key, k);
      var head := if key(r1[0]) == k then [r1[0]] else [];
      assert WithKey(r1[1..], key, k) == WithKey(r1, key, k)[|head|..];
      assert WithKey(r2[1..], key, k) == WithKey(r2, key, k)[|head|..];
    }
    NonIncreasingTail(r1, key);
    NonIncreasingTail(r2, key);
    StableSortIsUnique(r1[1..], r2[1..], key);
  }

  /** Any stable, non-increasing arrangement of `s` is the one `SortDescending` returns, so the model
      agrees with every stable sort the engine may use. */
  lemma SortDescendingIsTheStableSort<T>(s: seq<T>, r: seq<T>, key: T -> int)
    requires NonIncreasing(r, key) && StableWith(r, s, key)
    ensures r == SortDescending(s, key)
  {
    var sorted := SortDescending(s, key);
    StableSortIsUnique(r, sorted, key);
  }
}
