/** The stable sort of a sequence by an integer key, ascending, as
    JavaScript's array sort does with a comparator that subtracts two keys.
    The ECMAScript specification has required this sort to be stable since
    ES2019, so equal keys keep their input order. The model gives the sort as a
    function (SortBy, an insertion sort) and as an in-place method on an array
    (SortInPlace), and proves that the two agree and that the result is sorted,
    a permutation of the input, and stable. A descending sort, such as
    a ranking by total points, is the ascending sort by the negated key. */
module Sorting {
  import opened Common

  /** The elements of s whose key is k, in their order in s. */
  function FilterKey<T>(s: seq<T>, key: T -> int, k: int): (r: seq<T>)
    ensures |r| <= |s|
    ensures forall x :: x in r ==> x in s && key(x) == k
    decreases |s|
  {
    if s == [] then []
    else
      var rest := FilterKey(s[1..], key, k);
      assert forall x :: x in rest ==> x in s;
      (if key(s[0]) == k then [s[0]] else []) + rest
  }

  predicate SortedBy<T>(s: seq<T>, key: T -> int)
  {
    forall i, j :: 0 <= i < j < |s| ==> key(s[i]) <= key(s[j])
  }

  /** t keeps, for every key value, the relative order that s gives the
      elements with that key. Together with SortedBy this is stability. */
  ghost predicate SameOrderPerKey<T>(s: seq<T>, t: seq<T>, key: T -> int)
  {
    forall k :: FilterKey(s, key, k) == FilterKey(t, key, k)
  }

  /** Puts x in front of the first element whose key is not smaller than x's. */
  function Insert<T>(x: T, s: seq<T>, key: T -> int): (r: seq<T>)
    ensures |r| == |s| + 1
    ensures multiset(r) == multiset(s) + multiset{x}
    ensures forall y :: y in r ==> y == x || y in s
    decreases |s|
  {
    if s == [] || key(x) <= key(s[0]) then [x] + s
    else
      assert s == [s[0]] + s[1..];
      [s[0]] + Insert(x, s[1..], key)
  }

  /** Stable ascending sort of s by key. */
  function SortBy<T>(s: seq<T>, key: T -> int): (r: seq<T>)
    ensures |r| == |s|
    ensures multiset(r) == multiset(s)
    decreases |s|
  {
    if s == [] then []
    else
      assert s == [s[0]] + s[1..];
      Insert(s[0], SortBy(s[1..], key), key)
  }

  lemma {:induction false} FilterKeyAppend<T>(a: seq<T>, b: seq<T>, key: T -> int, k: int)
    ensures FilterKey(a + b, key, k) == FilterKey(a, key, k) + FilterKey(b, key, k)
    decreases |a|
  {
    if a == [] {
      assert a + b == b;
    } else {
      assert (a + b)[1..] == a[1..] + b;
      FilterKeyAppend(a[1..], b, key, k);
    }
  }

  lemma {:induction false} InsertSorted<T>(x: T, s: seq<T>, key: T -> int)
    requires SortedBy(s, key)
    ensures SortedBy(Insert(x, s, key), key)
    decreases |s|
  {
    if s != [] && key(x) > key(s[0]) {
      assert SortedBy(s[1..], key);
      InsertSorted(x, s[1..], key);
      var r := Insert(x, s[1..], key);
      forall y | y in r ensures key(s[0]) <= key(y) {
        if y != x {
          var k :| 0 <= k < |s[1..]| && s[1..][k] == y;
          assert s[k + 1] == y;
        }
      }
      assert Insert(x, s, key) == [s[0]] + r;
    }
  }

  lemma {:induction false} InsertFilter<T>(x: T, s: seq<T>, key: T -> int, k: int)
    ensures FilterKey(Insert(x, s, key), key, k)
         == (if key(x) == k then [x] else []) + FilterKey(s, key, k)
    decreases |s|
  {
    if s != [] && key(x) > key(s[0]) {
      InsertFilter(x, s[1..], key, k);
      assert Insert(x, s, key)[1..] == Insert(x, s[1..], key);
    } else {
      assert Insert(x, s, key)[1..] == s;
    }
  }

  /** SortBy returns a sorted permutation of its input that keeps the input
      order among elements with equal keys. */
  lemma {:induction false} SortByCorrect<T>(s: seq<T>, key: T -> int)
    ensures SortedBy(SortBy(s, key), key)
    ensures multiset(SortBy(s, key)) == multiset(s)
    ensures SameOrderPerKey(s, SortBy(s, key), key)
    decreases |s|
  {
    if s != [] {
      SortByCorrect(s[1..], key);
      InsertSorted(s[0], SortBy(s[1..], key), key);
      forall k ensures FilterKey(s, key, k) == FilterKey(SortBy(s, key), key, k) {
        InsertFilter(s[0], SortBy(s[1..], key), key, k);
      }
    }
  }

  lemma NonEmptyFilterKey<T>(s: seq<T>, key: T -> int)
    requires s != []
    ensures FilterKey(s, key, key(s[0])) != []
  {
  }

  lemma SameOrderPerKeyTrans<T>(s: seq<T>, t: seq<T>, u: seq<T>, key: T -> int)
    requires SameOrderPerKey(s, t, key) && SameOrderPerKey(t, u, key)
    ensures SameOrderPerKey(s, u, key)
  {
  }

  /** Two sorted sequences with the same per-key order start with the same element. */
  lemma SortedSameHead<T>(s: seq<T>, t: seq<T>, key: T -> int)
    requires s != [] && t != []
    requires SortedBy(s, key) && SortedBy(t, key)
    requires SameOrderPerKey(s, t, key)
    ensures s[0] == t[0]
  {
    var m, n := key(s[0]), key(t[0]);
    assert FilterKey(s, key, m) == [s[0]] + FilterKey(s[1..], key, m);
    var fm := FilterKey(t, key, m);
    assert fm[0] in t;
    var i :| 0 <= i < |t| && t[i] == fm[0];
    assert n <= key(t[i]) == m;
    assert FilterKey(t, key, n) == [t[0]] + FilterKey(t[1..], key, n);
    var fn := FilterKey(s, key, n);
    assert fn[0] in s;
    var i' :| 0 <= i' < |s| && s[i'] == fn[0];
    assert m <= key(s[i']) == n;
  }

  /** Removing equal first elements keeps the per-key orders equal. */
  lemma SameOrderPerKeyTail<T>(s: seq<T>, t: seq<T>, key: T -> int)
    requires s != [] && t != [] && s[0] == t[0]
    requires SameOrderPerKey(s, t, key)
    ensures SameOrderPerKey(s[1..], t[1..], key)
  {
    forall k ensures FilterKey(s[1..], key, k) == FilterKey(t[1..], key, k) {
      var p := if key(s[0]) == k then [s[0]] else [];
      assert FilterKey(s, key, k) == p + FilterKey(s[1..], key, k);
      assert FilterKey(t, key, k) == p + FilterKey(t[1..], key, k);
      assert FilterKey(s[1..], key, k) == (p + FilterKey(s[1..], key, k))[|p|..];
      assert FilterKey(t[1..], key, k) == (p + FilterKey(t[1..], key, k))[|p|..];
    }
  }

  /** A sorted sequence is determined by the order it keeps within each key:
      two sorted sequences with the same per-key order are equal. */
  lemma {:induction false} SortedUnique<T>(s: seq<T>, t: seq<T>, key: T -> int)
    requires SortedBy(s, key) && SortedBy(t, key)
    requires SameOrderPerKey(s, t, key)
    ensures s == t
    decreases |s| + |t|
  {
    if s == [] || t == [] {
      if s != [] {
        NonEmptyFilterKey(s, key);
        assert false;
      } else if t != [] {
        NonEmptyFilterKey(t, key);
        assert false;
      }
    } else {
      SortedSameHead(s, t, key);
      SameOrderPerKeyTail(s, t, key);
      assert SortedBy(s[1..], key) && SortedBy(t[1..], key);
      SortedUnique(s[1..], t[1..], key);
      assert s == [s[0]] + s[1..] && t == [t[0]] + t[1..];
    }
  }

  lemma SwapFilter<T>(pre: seq<T>, x: T, y: T, post: seq<T>, key: T -> int, k: int)
    requires key(x) != key(y)
    ensures FilterKey(pre + [x, y] + post, key, k) == FilterKey(pre + [y, x] + post, key, k)
  {
    FilterKeyAppend(pre + [x, y], post, key, k);
    FilterKeyAppend(pre, [x, y], key, k);
    FilterKeyAppend(pre + [y, x], post, key, k);
    FilterKeyAppend(pre, [y, x], key, k);
    assert [x, y][1..] == [y] && [y, x][1..] == [x];
    assert FilterKey([x, y], key, k) == FilterKey([y, x], key, k);
  }

  /** Exchanging two neighbours with different keys keeps every per-key order. */
  lemma SwapKeepsOrderPerKey<T>(s: seq<T>, j: int, key: T -> int)
    requires 0 < j < |s| && key(s[j - 1]) != key(s[j])
    ensures SameOrderPerKey(s, s[j - 1 := s[j]][j := s[j - 1]], key)
  {
    var t := s[j - 1 := s[j]][j := s[j - 1]];
    assert s == s[..j - 1] + [s[j - 1], s[j]] + s[j + 1..];
    assert t == s[..j - 1] + [s[j], s[j - 1]] + s[j + 1..];
    forall k ensures FilterKey(s, key, k) == FilterKey(t, key, k) {
      SwapFilter(s[..j - 1], s[j - 1], s[j], s[j + 1..], key, k);
    }
  }

  /** Exchanges a[j - 1] and a[j], whose keys differ. */
  method SwapNeighbours<T>(a: array<T>, j: int, key: T -> int)
    requires 0 < j < a.Length && key(a[j - 1]) != key(a[j])
    modifies a
    ensures a[j - 1] == old(a[j]) && a[j] == old(a[j - 1])
    ensures forall p :: 0 <= p < a.Length && p != j - 1 && p != j ==> a[p] == old(a[p])
    ensures SameOrderPerKey(old(a[..]), a[..], key)
  {
    SwapKeepsOrderPerKey(a[..], j, key);
    a[j - 1], a[j] := a[j], a[j - 1];
  }

  /** s[..i + 1] is sorted by key once position j is left out. */
  ghost predicate SortedExcept<T>(s: seq<T>, j: int, i: int, key: T -> int)
    requires i < |s|
  {
    forall p, q :: 0 <= p < q <= i && p != j && q != j ==> key(s[p]) <= key(s[q])
  }

  /** s[j] has a smaller key than everything after it up to position i. */
  ghost predicate BelowRest<T>(s: seq<T>, j: int, i: int, key: T -> int)
    requires 0 <= j <= i < |s|
  {
    forall q :: j < q <= i ==> key(s[j]) < key(s[q])
  }

  /** One exchange of the sinking element with its larger left neighbour. */
  lemma SinkStep<T>(s: seq<T>, j: int, i: int, key: T -> int)
    requires 0 < j <= i < |s|
    requires SortedExcept(s, j, i, key) && BelowRest(s, j, i, key)
    requires key(s[j - 1]) > key(s[j])
    ensures SortedExcept(s[j - 1 := s[j]][j := s[j - 1]], j - 1, i, key)
    ensures BelowRest(s[j - 1 := s[j]][j := s[j - 1]], j - 1, i, key)
  {
  }

  /** The sinking element has stopped: the whole of s[..i + 1] is sorted. */
  lemma SinkDone<T>(s: seq<T>, j: int, i: int, key: T -> int)
    requires 0 <= j <= i < |s|
    requires SortedExcept(s, j, i, key) && BelowRest(s, j, i, key)
    requires j == 0 || key(s[j - 1]) <= key(s[j])
    ensures forall p, q :: 0 <= p < q <= i ==> key(s[p]) <= key(s[q])
  {
    forall p, q | 0 <= p < q <= i ensures key(s[p]) <= key(s[q]) {
      if q == j && p < j - 1 {
        assert key(s[p]) <= key(s[j - 1]);
      }
    }
  }

  /** Sinks a[i] into the sorted prefix a[..i] by exchanges of neighbours. */
  method SinkInto<T>(a: array<T>, i: int, key: T -> int)
    requires 0 <= i < a.Length
    requires forall p, q :: 0 <= p < q < i ==> key(a[p]) <= key(a[q])
    modifies a
    ensures forall p, q :: 0 <= p < q <= i ==> key(a[p]) <= key(a[q])
    ensures SameOrderPerKey(old(a[..]), a[..], key)
  {
    ghost var original := a[..];
    var j := i;
    assert SortedExcept(a[..], j, i, key);
    while j > 0 && key(a[j - 1]) > key(a[j])
      invariant 0 <= j <= i
      invariant SortedExcept(a[..], j, i, key) && BelowRest(a[..], j, i, key)
      invariant SameOrderPerKey(original, a[..], key)
    {
      ghost var before := a[..];
      SinkStep(before, j, i, key);
      SwapNeighbours(a, j, key);
      assert a[..] == before[j - 1 := before[j]][j := before[j - 1]];
      SameOrderPerKeyTrans(original, before, a[..], key);
      j := j - 1;
    }
    SinkDone(a[..], j, i, key);
  }

  /** The in-place sort: insertion sort by exchanges of neighbours, which
      leaves the array holding exactly SortBy of its old contents. */
  method SortInPlace<T>(a: array<T>, key: T -> int)
    modifies a
    ensures a[..] == SortBy(old(a[..]), key)
  {
    var i := 0;
    while i < a.Length
      invariant 0 <= i <= a.Length
      invariant forall p, q :: 0 <= p < q < i ==> key(a[p]) <= key(a[q])
      invariant SameOrderPerKey(old(a[..]), a[..], key)
    {
      SinkInto(a, i, key);
      i := i + 1;
    }
    assert SortedBy(a[..], key);
    SortByCorrect(old(a[..]), key);
    SortedUnique(a[..], SortBy(old(a[..]), key), key);
  }

  /** A permutation of a sequence whose elements have pairwise different
      values of f has that property too. */
  lemma PermutationKeepsDistinct<T>(a: seq<T>, b: seq<T>, f: T -> int)
    requires multiset(a) == multiset(b)
    requires forall i, j :: 0 <= i < j < |a| ==> f(a[i]) != f(a[j])
    ensures forall i, j :: 0 <= i < j < |b| ==> f(b[i]) != f(b[j])
  {
    forall i, j | 0 <= i < j < |b| ensures f(b[i]) != f(b[j]) {
      if f(b[i]) == f(b[j]) {
        assert b[i] in multiset(a) && b[j] in multiset(a);
        var p :| 0 <= p < |a| && a[p] == b[i];
        var q :| 0 <= q < |a| && a[q] == b[j];
        assert p == q;
        RepeatedElement(b, i, j);
        NoRepeatsCountOne(a, b[i]);
        assert false;
      }
    }
  }

  lemma SortByMembers<T>(s: seq<T>, key: T -> int, x: T)
    ensures x in SortBy(s, key) <==> x in s
  {
    assert x in SortBy(s, key) <==> x in multiset(SortBy(s, key));
  }
}
