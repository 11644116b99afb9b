/** Sequence operations the frontend builds its lists with: Array.prototype.filter,
    the "includes ? filter-out : append" toggle, and the stable
    Array.prototype.sort with a numeric comparator. */
module Seqs {

  /** r is obtained from s by deleting elements, keeping the order. */
  predicate IsSubsequence<T(==)>(r: seq<T>, s: seq<T>)
    decreases |s|
  {
    r == [] || (s != [] && ((r[0] == s[0] && IsSubsequence(r[1..], s[1..])) || IsSubsequence(r, s[1..])))
  }

  /** `s.filter(f)`. */
  function Filter<T(==)>(f: T -> bool, s: seq<T>): (r: seq<T>)
    ensures |r| <= |s|
    ensures forall x :: x in r ==> x in s && f(x)
    ensures forall x :: x in s && f(x) ==> x in r
    ensures IsSubsequence(r, s)
  {
    if s == [] then []
    else if f(s[0]) then [s[0]] + Filter(f, s[1..])
    else Filter(f, s[1..])
  }

  /** The filter keeps every passing element as often as it occurs in s, and
      nothing else. */
  lemma {:induction false} FilterMultiset<T>(f: T -> bool, s: seq<T>)
    ensures multiset(Filter(f, s)) <= multiset(s)
    ensures forall x :: x in s ==> multiset(Filter(f, s))[x] == if f(x) then multiset(s)[x] else 0
  {
    if s != [] {
      FilterMultiset(f, s[1..]);
      var rest := Filter(f, s[1..]);
      assert multiset(s) == multiset{s[0]} + multiset(s[1..]) by {
        assert s == [s[0]] + s[1..];
      }
      if f(s[0]) {
        assert Filter(f, s) == [s[0]] + rest;
        assert multiset(Filter(f, s)) == multiset{s[0]} + multiset(rest);
      } else {
        assert Filter(f, s) == rest;
      }
    }
  }

  lemma {:induction false} FilterAll<T>(f: T -> bool, s: seq<T>)
    requires forall x :: x in s ==> f(x)
    ensures Filter(f, s) == s
  {
    if s != [] {
      FilterAll(f, s[1..]);
    }
  }

  lemma {:induction false} FilterAppend<T>(f: T -> bool, s: seq<T>, t: seq<T>)
    ensures Filter(f, s + t) == Filter(f, s) + Filter(f, t)
  {
    if s != [] {
      assert (s + t)[0] == s[0] && (s + t)[1..] == s[1..] + t;
      FilterAppend(f, s[1..], t);
    } else {
      assert s + t == t;
    }
  }

  /** A filter and its complement split the sequence between them. */
  lemma {:induction false} FilterComplement<T>(f: T -> bool, g: T -> bool, s: seq<T>)
    requires forall x :: g(x) == !f(x)
    ensures |Filter(f, s)| + |Filter(g, s)| == |s|
  {
    if s != [] {
      FilterComplement(f, g, s[1..]);
    }
  }

  /** `prev.includes(x) ? prev.filter(v => v !== x) : [...prev, x]`. */
  function Toggle<T(==)>(s: seq<T>, x: T): (r: seq<T>)
    ensures x in r <==> x !in s
    ensures forall y :: y in r && y != x ==> y in s
    ensures forall y :: y in s && y != x ==> y in r
  {
    if x in s then Filter(y => y != x, s) else s + [x]
  }

  /** Toggling an element that is absent and then toggling it again gives the
      original sequence back; in every case the same elements are present. */
  lemma ToggleTwice<T>(s: seq<T>, x: T)
    ensures forall y :: y in Toggle(Toggle(s, x), x) ==> y in s
    ensures forall y :: y in s ==> y in Toggle(Toggle(s, x), x)
    ensures x !in s ==> Toggle(Toggle(s, x), x) == s
  {
    if x !in s {
      FilterAll(y => y != x, s);
      FilterAppend(y => y != x, s, [x]);
      assert Filter(y => y != x, [x]) == [];
    }
  }

  predicate NoDup<T(==)>(s: seq<T>) {
    forall i, j :: 0 <= i < j < |s| ==> s[i] != s[j]
  }

  lemma {:induction false} FilterNoDup<T>(f: T -> bool, s: seq<T>)
    requires NoDup(s)
    ensures NoDup(Filter(f, s))
  {
    if s != [] {
      assert NoDup(s[1..]);
      FilterNoDup(f, s[1..]);
      assert s[0] !in s[1..];
    }
  }

  /** Toggling keeps a list free of repeats. */
  lemma ToggleNoDup<T>(s: seq<T>, x: T)
    requires NoDup(s)
    ensures NoDup(Toggle(s, x))
  {
    if x in s {
      FilterNoDup(y => y != x, s);
    } else {
      var r := s + [x];
      assert forall i :: 0 <= i < |s| ==> r[i] == s[i];
    }
  }

  predicate SortedBy<T>(key: T -> int, s: seq<T>) {
    forall i, j :: 0 <= i < j < |s| ==> key(s[i]) <= key(s[j])
  }

  /** Inserts x before the first element whose key is not smaller, so that x
      stays ahead of the elements it compared equal to. */
  function Insert<T>(key: T -> int, x: T, s: seq<T>): (r: seq<T>)
    requires SortedBy(key, s)
    ensures SortedBy(key, r)
    ensures multiset(r) == multiset(s) + multiset{x}
    ensures |r| == |s| + 1
    ensures r[0] == x || (s != [] && r[0] == s[0])
  {
    if s == [] || key(x) <= key(s[0]) then [x] + s
    else
      assert s == [s[0]] + s[1..];
      [s[0]] + Insert(key, x, s[1..])
  }

  /** A stable sort of s by ascending key: `s.sort((a, b) => key(a) - key(b))`. */
  function SortBy<T>(key: T -> int, s: seq<T>): (r: seq<T>)
    ensures SortedBy(key, r)
    ensures multiset(r) == multiset(s)
    ensures |r| == |s|
  {
    if s == [] then [] else
      assert s == [s[0]] + s[1..];
      Insert(key, s[0], SortBy(key, s[1..]))
  }

  /** `s.reverse()` on a copy. */
  function Reverse<T>(s: seq<T>): (r: seq<T>)
    ensures |r| == |s|
    ensures forall i :: 0 <= i < |s| ==> r[i] == s[|s| - 1 - i]
  {
    if s == [] then [] else Reverse(s[1..]) + [s[0]]
  }

  lemma {:induction false} ReverseMultiset<T>(s: seq<T>)
    ensures multiset(Reverse(s)) == multiset(s)
  {
    if s != [] {
      ReverseMultiset(s[1..]);
      assert s == [s[0]] + s[1..];
    }
  }
}
