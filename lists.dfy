/** List operations the components share: the platform's Array filter, slice(0, n)
    and its stable sort with a descending numeric comparator (`(a, b) => key(b) - key(a)`),
    together with the facts the components' properties rest on. */
module Lists {
  import opened Types

  function Min(a: int, b: int): int {
    if a <= b then a else b
  }

  /** Array.prototype.findIndex; None plays the part of -1. */
  function FirstIndex<T>(s: seq<T>, p: T -> bool): (r: Option<nat>)
    ensures r.Some? ==> r.value < |s| && p(s[r.value])
    ensures r.Some? ==> forall j :: 0 <= j < r.value ==> !p(s[j])
    ensures r.None? <==> forall j :: 0 <= j < |s| ==> !p(s[j])
  {
    if s == [] then None
    else if p(s[0]) then Some(0)
    else match FirstIndex(s[1..], p)
      case None => None
      case Some(i) => Some(i + 1)
  }

  /** Array.prototype.filter. */
  function Filter<T>(s: seq<T>, p: T -> bool): (r: seq<T>)
    ensures |r| <= |s|
    ensures forall i :: 0 <= i < |r| ==> r[i] in s && p(r[i])
    ensures forall i :: 0 <= i < |s| && p(s[i]) ==> s[i] in r
  {
    if s == [] then [] else (if p(s[0]) then [s[0]] else []) + Filter(s[1..], p)
  }

  lemma FilterCons<T>(s: seq<T>, p: T -> bool)
    requires s != []
    ensures Filter(s, p) == (if p(s[0]) then [s[0]] else []) + Filter(s[1..], p)
  {
  }

  lemma ConsShift<T>(c: T, rest: seq<T>)
    ensures ([c] + rest)[0] == c
    ensures forall i :: 0 < i <= |rest| ==> ([c] + rest)[i] == rest[i - 1]
  {
  }

  /** Array.prototype.slice(0, n) for n >= 0. */
  function Take<T>(s: seq<T>, n: nat): (r: seq<T>)
    ensures |r| == Min(n, |s|)
    ensures forall i :: 0 <= i < |r| ==> r[i] == s[i]
  {
    s[..Min(n, |s|)]
  }

  /** A prefix draws its elements from the whole without repeating any. */
  lemma TakeSubMultiset<T>(s: seq<T>, n: nat)
    ensures multiset(Take(s, n)) <= multiset(s)
    ensures n >= |s| ==> multiset(Take(s, n)) == multiset(s)
  {
    var k := Min(n, |s|);
    assert s == s[..k] + s[k..];
    assert multiset(s) == multiset(s[..k]) + multiset(s[k..]);
  }

  /** `a` can be obtained from `b` by deleting elements: the relative order of what is
      kept is the order in `b`. */
  predicate IsSubsequence<T(==)>(a: seq<T>, b: seq<T>)
    decreases |b|
  {
    if a == [] then true
    else if b == [] then false
    else (a[0] == b[0] && IsSubsequence(a[1..], b[1..])) || IsSubsequence(a, b[1..])
  }

  lemma {:induction false} FilterIsSubsequence<T>(s: seq<T>, p: T -> bool)
    ensures IsSubsequence(Filter(s, p), s)
  {
    if s != [] {
      var f, rest := Filter(s, p), Filter(s[1..], p);
      FilterIsSubsequence(s[1..], p);
      if p(s[0]) {
        assert f == [s[0]] + rest;
        assert f[0] == s[0] && f[1..] == rest;
      } else {
        assert f == rest;
        if f != [] {
          assert IsSubsequence(f, s[1..]);
        }
      }
    }
  }

  lemma {:induction false} PrefixIsSubsequence<T>(s: seq<T>, n: nat)
    requires n <= |s|
    ensures IsSubsequence(s[..n], s)
  {
    if n > 0 {
      PrefixIsSubsequence(s[1..], n - 1);
      assert s[..n][1..] == s[1..][..n - 1];
    }
  }

  lemma {:induction false} SubsequenceTransitive<T>(a: seq<T>, b: seq<T>, c: seq<T>)
    requires IsSubsequence(a, b) && IsSubsequence(b, c)
    ensures IsSubsequence(a, c)
    decreases |c|
  {
    if a != [] {
      assert b != [] && c != [];
      if IsSubsequence(b, c[1..]) {
        SubsequenceTransitive(a, b, c[1..]);
      } else if a[0] == b[0] && IsSubsequence(a[1..], b[1..]) {
        SubsequenceTransitive(a[1..], b[1..], c[1..]);
      } else {
        SubsequenceTransitive(a, b[1..], c[1..]);
      }
    }
  }

  /** Taking a prefix of a filtered list keeps the order of the original list. */
  lemma TakeFilterIsSubsequence<T>(s: seq<T>, p: T -> bool, n: nat)
    ensures IsSubsequence(Take(Filter(s, p), n), s)
  {
    var f := Filter(s, p);
    FilterIsSubsequence(s, p);
    PrefixIsSubsequence(f, Min(n, |f|));
    SubsequenceTransitive(Take(f, n), f, s);
  }

  lemma {:induction false} FilterConjunction<T>(s: seq<T>, p: T -> bool, q: T -> bool)
    ensures Filter(Filter(s, p), q) == Filter(s, x => p(x) && q(x))
  {
    if s != [] {
      FilterConjunction(s[1..], p, q);
      var head := if p(s[0]) then [s[0]] else [];
      assert Filter(s, p) == head + Filter(s[1..], p);
      FilterAppend(head, Filter(s[1..], p), q);
    }
  }

  lemma {:induction false} FilterAppend<T>(a: seq<T>, b: seq<T>, p: T -> bool)
    ensures Filter(a + b, p) == Filter(a, p) + Filter(b, p)
  {
    if a != [] {
      FilterAppend(a[1..], b, p);
      var head := if p(a[0]) then [a[0]] else [];
      assert (a + b)[0] == a[0] && (a + b)[1..] == a[1..] + b;
      assert Filter(a + b, p) == head + Filter(a[1..] + b, p);
      assert Filter(a, p) == head + Filter(a[1..], p);
    } else {
      assert a + b == b;
    }
  }

  /** Filtering with a predicate every element meets changes nothing. */
  lemma {:induction false} FilterKeepsAll<T>(s: seq<T>, p: T -> bool)
    requires forall i :: 0 <= i < |s| ==> p(s[i])
    ensures Filter(s, p) == s
  {
    if s != [] {
      FilterKeepsAll(s[1..], p);
      assert [s[0]] + s[1..] == s;
    }
  }

  /** Filtering depends only on the verdicts on the elements being filtered. */
  lemma {:induction false} FilterAgree<T>(s: seq<T>, p: T -> bool, q: T -> bool)
    requires forall i :: 0 <= i < |s| ==> p(s[i]) == q(s[i])
    ensures Filter(s, p) == Filter(s, q)
  {
    if s != [] {
      FilterAgree(s[1..], p, q);
    }
  }

  /** No value occurs twice. */
  ghost predicate NoDuplicates<T>(s: seq<T>) {
    forall i, j :: 0 <= i < j < |s| ==> s[i] != s[j]
  }

  /** A value absent from a list without repeats can go in front of it. */
  lemma ConsNoDuplicates<T>(h: T, rest: seq<T>)
    requires NoDuplicates(rest) && h !in rest
    ensures NoDuplicates([h] + rest)
  {
    var r := [h] + rest;
    forall i, j | 0 <= i < j < |r| ensures r[i] != r[j] {
      assert r[j] == rest[j - 1];
      if i > 0 {
        assert r[i] == rest[i - 1];
      }
    }
  }

  /** The tail of a list without repeats has none, and does not hold the head. */
  lemma TailNoDuplicates<T>(s: seq<T>)
    requires s != [] && NoDuplicates(s)
    ensures NoDuplicates(s[1..]) && s[0] !in s[1..]
  {
    forall i, j | 0 <= i < j < |s[1..]| ensures s[1..][i] != s[1..][j] {
      assert s[1..][i] == s[i + 1] && s[1..][j] == s[j + 1];
    }
  }

  lemma {:induction false} FilterNoDuplicates<T>(s: seq<T>, p: T -> bool)
    requires NoDuplicates(s)
    ensures NoDuplicates(Filter(s, p))
  {
    if s != [] {
      TailNoDuplicates(s);
      FilterNoDuplicates(s[1..], p);
      var rest := Filter(s[1..], p);
      if p(s[0]) {
        assert s[0] !in rest;
        assert Filter(s, p) == [s[0]] + rest;
        ConsNoDuplicates(s[0], rest);
      } else {
        assert Filter(s, p) == rest;
      }
    }
  }

  /** A list is non-increasing in `key`. */
  ghost predicate NonIncreasing<T>(s: seq<T>, key: T -> int) {
    forall i, j :: 0 <= i < j < |s| ==> key(s[i]) >= key(s[j])
  }

  /** Place `x` in front of the first element whose key is not larger than its own. */
  function Insert<T(==)>(x: T, s: seq<T>, key: T -> int): (r: seq<T>)
    ensures |r| == |s| + 1
    ensures multiset(r) == multiset(s) + multiset{x}
  {
    if s == [] then [x]
    else if key(x) >= key(s[0]) then [x] + s
    else
      assert s == [s[0]] + s[1..];
      [s[0]] + Insert(x, s[1..], key)
  }

  /** Inserting keeps every key under a bound that `x` and all of `s` respect. */
  lemma {:induction false} InsertBounded<T>(x: T, s: seq<T>, key: T -> int, b: int)
    requires key(x) <= b
    requires forall k :: 0 <= k < |s| ==> key(s[k]) <= b
    ensures forall k :: 0 <= k < |Insert(x, s, key)| ==> key(Insert(x, s, key)[k]) <= b
  {
    if s != [] && key(x) < key(s[0]) {
      InsertBounded(x, s[1..], key, b);
      var r := Insert(x, s, key);
      assert r == [s[0]] + Insert(x, s[1..], key);
      forall k | 0 <= k < |r| ensures key(r[k]) <= b {
        if k > 0 {
          assert r[k] == Insert(x, s[1..], key)[k - 1];
        }
      }
    }
  }

  /** An element no smaller than anything after it keeps a non-increasing list so. */
  lemma ConsKeepsOrder<T>(h: T, rest: seq<T>, key: T -> int)
    requires NonIncreasing(rest, key)
    requires forall k :: 0 <= k < |rest| ==> key(rest[k]) <= key(h)
    ensures NonIncreasing([h] + rest, key)
  {
    var r := [h] + rest;
    forall i, j | 0 <= i < j < |r| ensures key(r[i]) >= key(r[j]) {
      assert r[j] == rest[j - 1];
      if i > 0 {
        assert r[i] == rest[i - 1];
      }
    }
  }

  lemma {:induction false} InsertKeepsOrder<T>(x: T, s: seq<T>, key: T -> int)
    requires NonIncreasing(s, key)
    ensures NonIncreasing(Insert(x, s, key), key)
  {
    if s == [] {
    } else if key(x) >= key(s[0]) {
      assert forall k :: 0 <= k < |s| ==> key(s[k]) <= key(x) by {
        forall k | 0 < k < |s| ensures key(s[k]) <= key(s[0]) {}
      }
      ConsKeepsOrder(x, s, key);
    } else {
      InsertKeepsOrder(x, s[1..], key);
      InsertBounded(x, s[1..], key, key(s[0]));
      assert NonIncreasing(s[1..], key) by {
        forall i, j | 0 <= i < j < |s[1..]| ensures key(s[1..][i]) >= key(s[1..][j]) {
          assert s[1..][i] == s[i + 1] && s[1..][j] == s[j + 1];
        }
      }
      ConsKeepsOrder(s[0], Insert(x, s[1..], key), key);
    }
  }

  /** A stable sort, greatest key first; among equal keys the earlier element stays in
      front. */
  function SortDesc<T(==)>(s: seq<T>, key: T -> int): (r: seq<T>)
    ensures |r| == |s|
    ensures multiset(r) == multiset(s)
    ensures NonIncreasing(r, key)
  {
    if s == [] then []
    else
      assert s == [s[0]] + s[1..];
      InsertKeepsOrder(s[0], SortDesc(s[1..], key), key);
      Insert(s[0], SortDesc(s[1..], key), key)
  }

  function KeyIs<T>(key: T -> int, v: int): T -> bool {
    x => key(x) == v
  }

  lemma FilterPrepend<T>(x: T, s: seq<T>, p: T -> bool)
    ensures Filter([x] + s, p) == (if p(x) then [x] else []) + Filter(s, p)
  {
    FilterCons([x] + s, p);
    assert ([x] + s)[1..] == s;
  }

  lemma InsertFront<T>(x: T, s: seq<T>, key: T -> int)
    requires s == [] || key(x) >= key(s[0])
    ensures Insert(x, s, key) == [x] + s
  {
  }

  lemma InsertBehind<T>(x: T, s: seq<T>, key: T -> int)
    requires s != [] && key(x) < key(s[0])
    ensures Insert(x, s, key) == [s[0]] + Insert(x, s[1..], key)
  {
  }

  /** Inserting `x` puts it in front of every element sharing its key. */
  lemma {:induction false} InsertFilterKey<T>(x: T, s: seq<T>, key: T -> int, v: int)
    ensures Filter(Insert(x, s, key), KeyIs(key, v))
            == (if key(x) == v then [x] else []) + Filter(s, KeyIs(key, v))
  {
    if s == [] || key(x) >= key(s[0]) {
      InsertFront(x, s, key);
      FilterPrepend(x, s, KeyIs(key, v));
    } else {
      InsertFilterKey(x, s[1..], key, v);
      InsertFilterKeyBehind(x, s, key, v);
    }
  }

  /** The step of `InsertFilterKey` where `x` goes behind the first element. */
  lemma InsertFilterKeyBehind<T>(x: T, s: seq<T>, key: T -> int, v: int)
    requires s != [] && key(x) < key(s[0])
    requires Filter(Insert(x, s[1..], key), KeyIs(key, v))
             == (if key(x) == v then [x] else []) + Filter(s[1..], KeyIs(key, v))
    ensures Filter(Insert(x, s, key), KeyIs(key, v))
            == (if key(x) == v then [x] else []) + Filter(s, KeyIs(key, v))
  {
    var p := KeyIs(key, v);
    var ins := Insert(x, s[1..], key);
    var front := if key(x) == v then [x] else [];
    var head := if p(s[0]) then [s[0]] else [];
    InsertBehind(x, s, key);
    FilterPrepend(s[0], ins, p);
    FilterPrepend(s[0], s[1..], p);
    assert [s[0]] + s[1..] == s;
    // x and s[0] never both pass: their keys differ
    SwapPastEmpty(head, front, Filter(s[1..], p));
  }

  lemma SwapPastEmpty<T>(h: seq<T>, f: seq<T>, r: seq<T>)
    requires h == [] || f == []
    ensures h + (f + r) == f + (h + r)
  {
  }

  /** The sort is stable: the elements sharing any one key keep their input order. */
  lemma {:induction false} SortDescStable<T>(s: seq<T>, key: T -> int, v: int)
    ensures Filter(SortDesc(s, key), KeyIs(key, v)) == Filter(s, KeyIs(key, v))
  {
    if s != [] {
      SortDescStable(s[1..], key, v);
      InsertFilterKey(s[0], SortDesc(s[1..], key), key, v);
      FilterCons(s, KeyIs(key, v));
    }
  }

  lemma SortDescCons<T>(s: seq<T>, key: T -> int)
    requires s != []
    ensures SortDesc(s, key) == Insert(s[0], SortDesc(s[1..], key), key)
  {
  }

  lemma InsertHead<T>(x: T, s: seq<T>, key: T -> int)
    ensures Insert(x, s, key)[0] == if s == [] || key(x) >= key(s[0]) then x else s[0]
  {
  }

  lemma ShiftedKeysBelow<T>(s: seq<T>, key: T -> int, m': nat)
    requires m' + 1 < |s|
    requires forall k :: 0 <= k < m' ==> key(s[1..][k]) < key(s[1..][m'])
    requires key(s[0]) < key(s[m' + 1])
    ensures forall k :: 0 <= k < m' + 1 ==> key(s[k]) < key(s[m' + 1])
  {
    forall k | 0 < k < m' + 1 ensures key(s[k]) < key(s[m' + 1]) {
      assert s[k] == s[1..][k - 1];
    }
  }

  /** The sorted list starts with the first element of greatest key: everything before
      it in the input, at position `m`, has a smaller key. */
  lemma {:induction false} SortDescHeadIsFirstMax<T>(s: seq<T>, key: T -> int) returns (m: nat)
    requires s != []
    ensures m < |s| && SortDesc(s, key)[0] == s[m]
    ensures forall k :: 0 <= k < m ==> key(s[k]) < key(s[m])
  {
    var t := SortDesc(s[1..], key);
    SortDescCons(s, key);
    InsertHead(s[0], t, key);
    if t == [] || key(s[0]) >= key(t[0]) {
      m := 0;
    } else {
      var m' := SortDescHeadIsFirstMax(s[1..], key);
      m := m' + 1;
      ShiftedKeysBelow(s, key, m');
    }
  }

  /** Sorting keeps the elements: a value is in the sorted list iff it is in the input. */
  lemma SortDescMembers<T>(s: seq<T>, key: T -> int)
    ensures forall x :: x in SortDesc(s, key) <==> x in s
  {
    var r := SortDesc(s, key);
    forall x ensures x in r <==> x in s {
      assert x in r <==> x in multiset(r);
      assert x in s <==> x in multiset(s);
    }
  }

  lemma {:induction false} InsertNoDuplicates<T>(x: T, s: seq<T>, key: T -> int)
    requires NoDuplicates(s) && x !in s
    ensures NoDuplicates(Insert(x, s, key))
  {
    if s != [] && key(x) < key(s[0]) {
      var rest := Insert(x, s[1..], key);
      TailNoDuplicates(s);
      assert x !in s[1..];
      InsertNoDuplicates(x, s[1..], key);
      assert s[0] !in rest by {
        assert s[0] in multiset(rest) <==> s[0] in multiset(s[1..]) + multiset{x};
      }
      ConsNoDuplicates(s[0], rest);
    } else if s != [] {
      ConsNoDuplicates(x, s);
    }
  }

  /** Sorting a list without repeated values gives a list without repeated values. */
  lemma {:induction false} SortDescNoDuplicates<T>(s: seq<T>, key: T -> int)
    requires NoDuplicates(s)
    ensures NoDuplicates(SortDesc(s, key))
  {
    if s != [] {
      SortDescNoDuplicates(s[1..], key);
      SortDescMembers(s[1..], key);
      assert s[0] !in s[1..];
      InsertNoDuplicates(s[0], SortDesc(s[1..], key), key);
    }
  }

  lemma {:induction false} InsertKeysAgree<T>(x: T, s: seq<T>, k1: T -> int, k2: T -> int)
    requires k1(x) == k2(x) && forall i :: 0 <= i < |s| ==> k1(s[i]) == k2(s[i])
    ensures Insert(x, s, k1) == Insert(x, s, k2)
  {
    if s != [] {
      InsertKeysAgree(x, s[1..], k1, k2);
    }
  }

  /** The sort depends only on the keys of the elements being sorted. */
  lemma {:induction false} SortDescKeysAgree<T>(s: seq<T>, k1: T -> int, k2: T -> int)
    requires forall i :: 0 <= i < |s| ==> k1(s[i]) == k2(s[i])
    ensures SortDesc(s, k1) == SortDesc(s, k2)
  {
    if s != [] {
      var t := s[1..];
      forall i | 0 <= i < |t| ensures k1(t[i]) == k2(t[i]) {
        assert t[i] == s[i + 1];
      }
      SortDescKeysAgree(t, k1, k2);
      KeysAgreeOnSorted(t, k1, k2);
      InsertKeysAgree(s[0], SortDesc(t, k1), k1, k2);
    }
  }

  /** Keys that agree on a list agree on its sorted copy. */
  lemma KeysAgreeOnSorted<T>(t: seq<T>, k1: T -> int, k2: T -> int)
    requires forall i :: 0 <= i < |t| ==> k1(t[i]) == k2(t[i])
    ensures forall i :: 0 <= i < |SortDesc(t, k1)| ==> k1(SortDesc(t, k1)[i]) == k2(SortDesc(t, k1)[i])
  {
    var r := SortDesc(t, k1);
    forall i | 0 <= i < |r| ensures k1(r[i]) == k2(r[i]) {
      assert r[i] in multiset(r);
      assert r[i] in t;
      var j :| 0 <= j < |t| && t[j] == r[i];
    }
  }

  /** `reduce((sum, x) => sum + key(x), 0)`. */
  function SumBy<T>(s: seq<T>, key: T -> int): int {
    if s == [] then 0 else key(s[0]) + SumBy(s[1..], key)
  }

  lemma {:induction false} SumByInsert<T>(x: T, s: seq<T>, key: T -> int)
    ensures SumBy(Insert(x, s, key), key) == key(x) + SumBy(s, key)
  {
    if s != [] && key(x) < key(s[0]) {
      SumByInsert(x, s[1..], key);
      assert Insert(x, s, key)[1..] == Insert(x, s[1..], key);
    } else if s != [] {
      assert ([x] + s)[1..] == s;
    }
  }

  /** Sorting does not change the sum. */
  lemma {:induction false} SumBySortDesc<T>(s: seq<T>, key: T -> int)
    ensures SumBy(SortDesc(s, key), key) == SumBy(s, key)
  {
    if s != [] {
      SumBySortDesc(s[1..], key);
      SumByInsert(s[0], SortDesc(s[1..], key), key);
    }
  }

  /** In a non-increasing list, nothing after position n has a larger key than anything
      before it. */
  lemma PrefixDominates<T>(s: seq<T>, key: T -> int, n: nat)
    requires NonIncreasing(s, key) && n <= |s|
    ensures forall x, y :: x in s[..n] && y in s[n..] ==> key(y) <= key(x)
  {
    forall x, y | x in s[..n] && y in s[n..] ensures key(y) <= key(x) {
      var i :| 0 <= i < n && s[i] == x;
      var j :| n <= j < |s| && s[j] == y;
    }
  }
}
