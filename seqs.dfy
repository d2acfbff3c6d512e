/** The array operations the note store relies on (`filter`, a stable
    `sort` by a numeric key, `find`/`findIndex` by id), stated over `seq`. */
module Seqs {

  /** `xs.filter(f)`: the elements that pass `f`, in their original order. */
  function Filter<T(!new)>(xs: seq<T>, f: T -> bool): (r: seq<T>)
    ensures |r| <= |xs|
    ensures forall x :: x in r <==> x in xs && f(x)
  {
    if xs == [] then []
    else
      assert xs == [xs[0]] + xs[1..];
      (if f(xs[0]) then [xs[0]] else []) + Filter(xs[1..], f)
  }

  /** Filtering distributes over concatenation: the kept elements of `a`
      all come before the kept elements of `b`. */
  lemma {:induction false} FilterConcat<T(!new)>(a: seq<T>, b: seq<T>, f: T -> bool)
    ensures Filter(a + b, f) == Filter(a, f) + Filter(b, f)
  {
    if a != [] {
      var h := if f(a[0]) then [a[0]] else [];
      assert (a + b)[0] == a[0];
      assert (a + b)[1..] == a[1..] + b;
      assert Filter(a + b, f) == h + Filter(a[1..] + b, f);
      assert Filter(a, f) == h + Filter(a[1..], f);
      FilterConcat(a[1..], b, f);
      assert h + (Filter(a[1..], f) + Filter(b, f)) == (h + Filter(a[1..], f)) + Filter(b, f);
    } else {
      assert a + b == b;
    }
  }

  lemma FilterSingleton<T(!new)>(x: T, f: T -> bool)
    ensures Filter([x], f) == if f(x) then [x] else []
  {
    assert [x][1..] == [];
  }

  lemma FilterPair<T(!new)>(x: T, y: T, f: T -> bool)
    ensures Filter([x, y], f) == (if f(x) then [x] else []) + (if f(y) then [y] else [])
  {
    assert [x, y] == [x] + [y];
    FilterConcat([x], [y], f);
    FilterSingleton(x, f);
    FilterSingleton(y, f);
  }

  lemma FilterTriple<T(!new)>(x: T, y: T, z: T, f: T -> bool)
    ensures Filter([x, y, z], f)
         == (if f(x) then [x] else []) + (if f(y) then [y] else []) + (if f(z) then [z] else [])
  {
    assert [x, y, z] == [x] + [y, z];
    FilterConcat([x], [y, z], f);
    FilterSingleton(x, f);
    FilterPair(y, z, f);
  }

  /** A filter that every element passes keeps the sequence as it is. */
  lemma {:induction false} FilterKeepsAll<T(!new)>(xs: seq<T>, f: T -> bool)
    requires forall i :: 0 <= i < |xs| ==> f(xs[i])
    ensures Filter(xs, f) == xs
  {
    if xs != [] {
      FilterKeepsAll(xs[1..], f);
    }
  }

  /** Two tests that agree on every element keep the same elements. */
  lemma {:induction false} FilterAgree<T(!new)>(xs: seq<T>, f: T -> bool, g: T -> bool)
    requires forall i :: 0 <= i < |xs| ==> f(xs[i]) == g(xs[i])
    ensures Filter(xs, f) == Filter(xs, g)
  {
    if xs != [] {
      FilterAgree(xs[1..], f, g);
    }
  }

  /** The ids of a sequence of records, `xs.map(key)`. */
  function Keys<T>(xs: seq<T>, key: T -> string): (r: seq<string>)
    ensures |r| == |xs|
    ensures forall i :: 0 <= i < |xs| ==> r[i] == key(xs[i])
  {
    seq(|xs|, i requires 0 <= i < |xs| => key(xs[i]))
  }

  lemma KeysAppend<T>(xs: seq<T>, x: T, key: T -> string)
    ensures Keys(xs + [x], key) == Keys(xs, key) + [key(x)]
  {
  }

  /** The index `findIndex` returns: the first element equal to `x`, or -1. */
  function IndexOf<T(==)>(xs: seq<T>, x: T): (r: int)
    ensures -1 <= r < |xs|
    ensures r < 0 <==> x !in xs
    ensures 0 <= r ==> xs[r] == x && forall k :: 0 <= k < r ==> xs[k] != x
  {
    if xs == [] then -1
    else if xs[0] == x then 0
    else
      var k := IndexOf(xs[1..], x);
      if k < 0 then -1 else k + 1
  }

  /** The last index at which `x` occurs, or -1. */
  function LastIndexOf<T(==)>(xs: seq<T>, x: T): (r: int)
    ensures -1 <= r < |xs|
    ensures r < 0 <==> x !in xs
    ensures 0 <= r ==> xs[r] == x && forall k :: r < k < |xs| ==> xs[k] != x
  {
    if xs == [] then -1
    else if xs[|xs| - 1] == x then |xs| - 1
    else LastIndexOf(xs[..|xs| - 1], x)
  }

  /** `xs.findIndex(y => y === x)`: a linear scan from the front. */
  method FindIndex<T(==)>(xs: seq<T>, x: T) returns (index: int)
    ensures index == IndexOf(xs, x)
  {
    index := 0;
    while index < |xs|
      invariant 0 <= index <= |xs|
      invariant forall k :: 0 <= k < index ==> xs[k] != x
    {
      if xs[index] == x {
        return;
      }
      index := index + 1;
    }
    index := -1;
  }

  /** How many times `x` occurs in `xs`. */
  function Count<T(==)>(xs: seq<T>, x: T): (n: nat)
    ensures n <= |xs|
    ensures n == 0 <==> x !in xs
  {
    if xs == [] then 0 else (if xs[0] == x then 1 else 0) + Count(xs[1..], x)
  }

  /** No value occurs twice. */
  ghost predicate Unique<T>(xs: seq<T>)
  {
    forall i, j :: 0 <= i < j < |xs| ==> xs[i] != xs[j]
  }

  /** In a sequence without repetitions every member occurs exactly once. */
  lemma {:induction false} UniqueCount<T>(xs: seq<T>, x: T)
    requires Unique(xs) && x in xs
    ensures Count(xs, x) == 1
  {
    if xs[0] == x {
      assert x !in xs[1..] by {
        forall k | 0 <= k < |xs[1..]| ensures xs[1..][k] != x {
          assert xs[1..][k] == xs[k + 1];
        }
      }
    } else {
      assert Unique(xs[1..]) by {
        forall i, j | 0 <= i < j < |xs[1..]| ensures xs[1..][i] != xs[1..][j] {
          assert xs[1..][i] == xs[i + 1] && xs[1..][j] == xs[j + 1];
        }
      }
      UniqueCount(xs[1..], x);
    }
  }

  /** Appending a value not yet present keeps the values distinct. */
  lemma UniqueAppend<T>(xs: seq<T>, x: T)
    requires Unique(xs) && x !in xs
    ensures Unique(xs + [x])
  {
    var r := xs + [x];
    forall i, j | 0 <= i < j < |r| ensures r[i] != r[j] {
      if j == |xs| {
        assert r[i] == xs[i];
      } else {
        assert r[i] == xs[i] && r[j] == xs[j];
      }
    }
  }

  /** Keeping a sub-sequence of records keeps their ids distinct. */
  lemma {:induction false} FilterKeepsKeysUnique<T(!new)>(xs: seq<T>, f: T -> bool, key: T -> string)
    requires Unique(Keys(xs, key))
    ensures Unique(Keys(Filter(xs, f), key))
  {
    if xs != [] {
      var rest := xs[1..];
      assert Unique(Keys(rest, key)) by {
        forall i, j | 0 <= i < j < |rest| ensures key(rest[i]) != key(rest[j]) {
          assert Keys(xs, key)[i + 1] == key(rest[i]) && Keys(xs, key)[j + 1] == key(rest[j]);
        }
      }
      FilterKeepsKeysUnique(rest, f, key);
      var tail := Filter(rest, f);
      if f(xs[0]) {
        var r := Filter(xs, f);
        assert r == [xs[0]] + tail;
        forall i, j | 0 <= i < j < |r| ensures Keys(r, key)[i] != Keys(r, key)[j] {
          if i == 0 {
            assert r[j] in rest by { assert r[j] == tail[j - 1]; }
            var m :| 0 <= m < |rest| && rest[m] == r[j];
            assert Keys(xs, key)[0] != Keys(xs, key)[m + 1];
          } else {
            assert Keys(r, key)[i] == Keys(tail, key)[i - 1];
            assert Keys(r, key)[j] == Keys(tail, key)[j - 1];
          }
        }
      }
    }
  }

  /** Every pair in order is ordered by `key`. */
  ghost predicate SortedBy<T>(xs: seq<T>, key: T -> int)
  {
    forall i, j :: 0 <= i < j < |xs| ==> key(xs[i]) <= key(xs[j])
  }

  /** The test "has key `v`", used to state stability of sorting. */
  function HasKey<T>(key: T -> int, v: int): T -> bool
  {
    x => key(x) == v
  }

  /** Places `x` in front of the first element whose key is not smaller. */
  function InsertBy<T>(x: T, s: seq<T>, key: T -> int): (r: seq<T>)
    requires SortedBy(s, key)
    decreases |s|
    ensures |r| == |s| + 1
    ensures r[0] == x || (s != [] && r[0] == s[0])
    ensures SortedBy(r, key)
    ensures multiset(r) == multiset(s) + multiset{x}
  {
    if s == [] then [x]
    else if key(x) <= key(s[0]) then [x] + s
    else
      var t := InsertBy(x, s[1..], key);
      SortedCons(s[0], t, key);
      assert s == [s[0]] + s[1..];
      [s[0]] + t
  }

  /** A sorted sequence stays sorted under a head no larger than its first element. */
  lemma SortedCons<T>(y: T, t: seq<T>, key: T -> int)
    requires SortedBy(t, key)
    requires t != [] ==> key(y) <= key(t[0])
    ensures SortedBy([y] + t, key)
  {
    var r := [y] + t;
    forall i, j | 0 <= i < j < |r| ensures key(r[i]) <= key(r[j]) {
      if i == 0 {
        assert r[j] == t[j - 1];
        assert key(t[0]) <= key(t[j - 1]) || j == 1;
      } else {
        assert r[i] == t[i - 1] && r[j] == t[j - 1];
      }
    }
  }

  /** `xs.sort((a, b) => key(a) - key(b))`: a stable sort, as JavaScript's
      `Array.prototype.sort` is. */
  function SortBy<T>(xs: seq<T>, key: T -> int): (r: seq<T>)
    ensures multiset(r) == multiset(xs)
    ensures SortedBy(r, key)
  {
    if xs == [] then []
    else
      assert xs == [xs[0]] + xs[1..];
      InsertBy(xs[0], SortBy(xs[1..], key), key)
  }

  lemma {:induction false} InsertByStable<T(!new)>(x: T, s: seq<T>, key: T -> int, v: int)
    requires SortedBy(s, key)
    ensures Filter(InsertBy(x, s, key), HasKey(key, v))
         == (if key(x) == v then [x] else []) + Filter(s, HasKey(key, v))
  {
    var f := HasKey(key, v);
    FilterSingleton(x, f);
    if s == [] {
      assert InsertBy(x, s, key) == [x];
    } else if key(x) <= key(s[0]) {
      assert InsertBy(x, s, key) == [x] + s;
      FilterConcat([x], s, f);
    } else {
      var t := InsertBy(x, s[1..], key);
      var fx := if key(x) == v then [x] else [];
      var fy := if key(s[0]) == v then [s[0]] else [];
      calc {
        Filter(InsertBy(x, s, key), f);
        Filter([s[0]] + t, f);
        { FilterConcat([s[0]], t, f); FilterSingleton(s[0], f); }
        fy + Filter(t, f);
        { InsertByStable(x, s[1..], key, v); }
        fy + (fx + Filter(s[1..], f));
        { SwapFiltered(s[0], x, Filter(s[1..], f), key, v); }
        fx + (fy + Filter(s[1..], f));
        { assert s == [s[0]] + s[1..]; FilterConcat([s[0]], s[1..], f); }
        fx + Filter(s, f);
      }
    }
  }

  /** An element with a smaller key and one with a larger key never both
      pass the test "has key v", so their order does not matter. */
  lemma SwapFiltered<T>(y: T, x: T, rest: seq<T>, key: T -> int, v: int)
    requires key(y) < key(x)
    ensures (if key(y) == v then [y] else []) + ((if key(x) == v then [x] else []) + rest)
         == (if key(x) == v then [x] else []) + ((if key(y) == v then [y] else []) + rest)
  {
  }

  /** Sorting is stable: the elements that share one key keep the relative
      order they had in the input. */
  lemma {:induction false} SortByStable<T(!new)>(xs: seq<T>, key: T -> int, v: int)
    ensures Filter(SortBy(xs, key), HasKey(key, v)) == Filter(xs, HasKey(key, v))
  {
    if xs != [] {
      var f := HasKey(key, v);
      var sorted := SortBy(xs[1..], key);
      assert SortBy(xs, key) == InsertBy(xs[0], sorted, key);
      SortByStable(xs[1..], key, v);
      InsertByStable(xs[0], sorted, key, v);
      calc {
        Filter(xs, f);
        (if f(xs[0]) then [xs[0]] else []) + Filter(xs[1..], f);
      }
    }
  }
}
