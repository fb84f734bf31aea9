// Array methods the views use as library calls (`filter`, `sort`),
// stated once over sequences.

module Collections {

  /** `s.filter(p)`: the elements satisfying `p`, in their original order. */
  function Filter<T>(p: T -> bool, s: seq<T>): (r: seq<T>)
    ensures |r| <= |s|
    ensures forall i :: 0 <= i < |r| ==> p(r[i]) && r[i] in s
    ensures forall i :: 0 <= i < |s| && p(s[i]) ==> s[i] in r
  {
    if s == [] then []
    else if p(s[0]) then [s[0]] + Filter(p, s[1..])
    else Filter(p, s[1..])
  }

  /** Filtering distributes over concatenation, so it keeps the relative order
      of the elements it retains. */
  lemma {:induction false} FilterConcat<T>(p: T -> bool, a: seq<T>, b: seq<T>)
    ensures Filter(p, a + b) == Filter(p, a) + Filter(p, b)
  {
    if a == [] {
      assert a + b == b;
    } else {
      assert (a + b)[1..] == a[1..] + b;
      FilterConcat(p, a[1..], b);
    }
  }

  /** Extending a sequence by one element adds that element's count. */
  lemma FilterSnoc<T>(p: T -> bool, s: seq<T>, x: T)
    ensures |Filter(p, s + [x])| == |Filter(p, s)| + if p(x) then 1 else 0
  {
    FilterConcat(p, s, [x]);
  }

  /** Filtering keeps every copy of an element that satisfies `p` and no copy
      of one that does not. */
  lemma {:induction false} FilterMultiplicity<T>(p: T -> bool, s: seq<T>, x: T)
    ensures multiset(Filter(p, s))[x] == if p(x) then multiset(s)[x] else 0
  {
    if s != [] {
      FilterMultiplicity(p, s[1..], x);
      assert s == [s[0]] + s[1..];
    }
  }

  /** Filtering keeps everything exactly when every element satisfies `p`. */
  lemma {:induction false} FilterAll<T>(p: T -> bool, s: seq<T>)
    requires forall i :: 0 <= i < |s| ==> p(s[i])
    ensures Filter(p, s) == s
  {
    if s != [] {
      FilterAll(p, s[1..]);
    }
  }

  /** Replacing one element changes the number of kept elements by exactly
      the difference the replacement makes. */
  lemma {:induction false} FilterLengthUpdate<T>(p: T -> bool, s: seq<T>, i: nat, x: T)
    requires i < |s|
    ensures |Filter(p, s[i := x])| + (if p(s[i]) then 1 else 0)
         == |Filter(p, s)| + (if p(x) then 1 else 0)
  {
    var s' := s[i := x];
    assert s == s[..i] + [s[i]] + s[i + 1..];
    assert s' == s[..i] + [x] + s[i + 1..];
    FilterConcat(p, s[..i] + [s[i]], s[i + 1..]);
    FilterConcat(p, s[..i], [s[i]]);
    FilterConcat(p, s[..i] + [x], s[i + 1..]);
    FilterConcat(p, s[..i], [x]);
  }

  /** The sequence is ordered non-increasingly by `key`. */
  ghost predicate SortedDesc<T>(key: T -> int, s: seq<T>) {
    forall i, j :: 0 <= i < j < |s| ==> key(s[i]) >= key(s[j])
  }

  /** Prepending an element no smaller than the head keeps a sequence sorted. */
  lemma SortedCons<T>(key: T -> int, x: T, s: seq<T>)
    requires SortedDesc(key, s)
    requires s == [] || key(x) >= key(s[0])
    ensures SortedDesc(key, [x] + s)
  {
  }

  /** Inserts `x` into a sorted sequence before the first element whose key
      is not greater than its own. */
  function Insert<T>(key: T -> int, x: T, s: seq<T>): (r: seq<T>)
    requires SortedDesc(key, s)
    ensures SortedDesc(key, r)
    ensures multiset(r) == multiset(s) + multiset{x}
    ensures r[0] == x || (s != [] && r[0] == s[0])
  {
    if s == [] || key(x) >= key(s[0]) then
      SortedCons(key, x, s);
      [x] + s
    else
      var rest := Insert(key, x, s[1..]);
      assert s == [s[0]] + s[1..];
      SortedCons(key, s[0], rest);
      [s[0]] + rest
  }

  /** A stable sort, descending by `key`: the result is ordered and is a
      permutation of the input. */
  function SortDesc<T>(key: T -> int, s: seq<T>): (r: seq<T>)
    ensures SortedDesc(key, r)
    ensures multiset(r) == multiset(s)
  {
    if s == [] then []
    else
      assert s == [s[0]] + s[1..];
      Insert(key, s[0], SortDesc(key, s[1..]))
  }

  /** Filtering a sorted sequence leaves it sorted. */
  lemma {:induction false} FilterSorted<T>(p: T -> bool, key: T -> int, s: seq<T>)
    requires SortedDesc(key, s)
    ensures SortedDesc(key, Filter(p, s))
  {
    if s != [] {
      FilterSorted(p, key, s[1..]);
      var rest := Filter(p, s[1..]);
      forall k | 0 <= k < |rest| ensures key(s[0]) >= key(rest[k]) {
        assert rest[k] in s[1..];
      }
    }
  }

  /** `if (on) s = s.filter(p)`: a filter stage that may be switched off. */
  function FilterIf<T>(on: bool, p: T -> bool, s: seq<T>): (r: seq<T>)
    ensures |r| <= |s|
  {
    if on then Filter(p, s) else s
  }

  /** A stage keeps exactly the copies of the elements it lets through. */
  lemma FilterIfMultiplicity<T>(on: bool, p: T -> bool, s: seq<T>, x: T)
    ensures multiset(FilterIf(on, p, s))[x] == if !on || p(x) then multiset(s)[x] else 0
  {
    if on {
      FilterMultiplicity(p, s, x);
    }
  }

  /** A stage keeps a sorted sequence sorted. */
  lemma FilterIfSorted<T>(on: bool, p: T -> bool, key: T -> int, s: seq<T>)
    requires SortedDesc(key, s)
    ensures SortedDesc(key, FilterIf(on, p, s))
  {
    if on {
      FilterSorted(p, key, s);
    }
  }

  /** No element occurs twice. */
  predicate Distinct<T(==)>(s: seq<T>) {
    forall i, j :: 0 <= i < j < |s| ==> s[i] != s[j]
  }
}
