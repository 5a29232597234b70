/** Go's sort.Strings and sort.Slice as a function, and why their result does not
    depend on the sorting algorithm: a multiset has one sorted arrangement.

    A character of the model stands for one byte of a Go string, so comparing
    character by character is the order Go sorts strings by. */
module Sorting {

  /** a < b in Go: the first differing byte decides, a proper prefix comes first. */
  predicate Less(a: string, b: string)
    decreases |a|
  {
    if b == [] then false
    else if a == [] then true
    else a[0] < b[0] || (a[0] == b[0] && Less(a[1..], b[1..]))
  }

  predicate AtMost(a: string, b: string) { a == b || Less(a, b) }

  lemma {:induction false} LessTransitive(a: string, b: string, c: string)
    requires Less(a, b) && Less(b, c)
    ensures Less(a, c)
    decreases |a|
  {
    if a != [] && a[0] == b[0] == c[0] {
      LessTransitive(a[1..], b[1..], c[1..]);
    }
  }

  lemma {:induction false} LessTotal(a: string, b: string)
    ensures a == b || Less(a, b) || Less(b, a)
    ensures !(Less(a, b) && Less(b, a))
    ensures a == b ==> !Less(a, b)
    decreases |a|
  {
    if a != [] && b != [] && a[0] == b[0] {
      LessTotal(a[1..], b[1..]);
      assert a == [a[0]] + a[1..] && b == [b[0]] + b[1..];
    }
  }

  /** The strings part at position i. */
  ghost predicate PartAt(a: string, b: string, i: int) {
    0 <= i <= |a| && i <= |b| && a[..i] == b[..i] && i < |b| && (i == |a| || a[i] < b[i])
  }

  /** a < b if and only if a is a proper prefix of b, or has the lesser byte where they first
      differ. */
  lemma {:induction false} LessAtFirstDifference(a: string, b: string)
    ensures Less(a, b) <==> exists i :: PartAt(a, b, i)
    decreases |a|
  {
    if a != [] && b != [] {
      LessAtFirstDifference(a[1..], b[1..]);
      if i :| PartAt(a[1..], b[1..], i) {
        if a[0] == b[0] {
          assert a[..i + 1] == [a[0]] + a[1..][..i] && b[..i + 1] == [b[0]] + b[1..][..i];
          assert PartAt(a, b, i + 1);
        }
      }
      if a[0] < b[0] { assert PartAt(a, b, 0); }
      if i :| PartAt(a, b, i) {
        if i > 0 {
          assert a[..i][0] == b[..i][0];
          assert a[..i][1..] == a[1..][..i - 1] && b[..i][1..] == b[1..][..i - 1];
          assert PartAt(a[1..], b[1..], i - 1);
        }
      }
    } else if a == [] && b != [] {
      assert PartAt(a, b, 0);
    }
  }

  ghost predicate TotalPreorder<T(!new)>(le: (T, T) -> bool) {
    && (forall x, y :: le(x, y) || le(y, x))
    && (forall x, y, z :: le(x, y) && le(y, z) ==> le(x, z))
  }

  ghost predicate TotalOrder<T(!new)>(le: (T, T) -> bool) {
    TotalPreorder(le) && forall x, y :: le(x, y) && le(y, x) ==> x == y
  }

  lemma AtMostTotalOrder()
    ensures TotalOrder(AtMost)
  {
    forall x, y ensures AtMost(x, y) || AtMost(y, x) { LessTotal(x, y); }
    forall x, y | AtMost(x, y) && AtMost(y, x) ensures x == y { LessTotal(x, y); }
    forall x, y, z | AtMost(x, y) && AtMost(y, z) ensures AtMost(x, z) {
      if x != y && y != z { LessTransitive(x, y, z); }
    }
  }

  ghost predicate InOrder<T>(s: seq<T>, le: (T, T) -> bool, i: int, j: int) {
    0 <= i < j < |s| ==> le(s[i], s[j])
  }

  ghost predicate Sorted<T>(s: seq<T>, le: (T, T) -> bool) {
    forall i, j :: InOrder(s, le, i, j)
  }

  function Insert<T>(x: T, s: seq<T>, le: (T, T) -> bool): (r: seq<T>)
    ensures multiset(r) == multiset(s) + multiset{x}
    ensures |r| == |s| + 1
  {
    if s == [] then [x]
    else if le(x, s[0]) then
      var r := [x] + s;
      assert multiset(r) == multiset([x]) + multiset(s);
      r
    else
      assert s == [s[0]] + s[1..];
      [s[0]] + Insert(x, s[1..], le)
  }

  function Sort<T>(s: seq<T>, le: (T, T) -> bool): (r: seq<T>)
    ensures multiset(r) == multiset(s)
    ensures |r| == |s|
  {
    if s == [] then []
    else
      assert s == [s[0]] + s[1..];
      Insert(s[0], Sort(s[1..], le), le)
  }

  lemma SortedTail<T>(s: seq<T>, le: (T, T) -> bool)
    requires Sorted(s, le) && s != []
    ensures Sorted(s[1..], le)
  {
    forall i, j ensures InOrder(s[1..], le, i, j) {
      assert InOrder(s, le, i + 1, j + 1);
    }
  }

  lemma SortedCons<T>(x: T, s: seq<T>, le: (T, T) -> bool)
    requires Sorted(s, le) && forall k :: 0 <= k < |s| ==> le(x, s[k])
    ensures Sorted([x] + s, le)
  {
    forall i, j ensures InOrder([x] + s, le, i, j) {
      if i > 0 && j > 0 { assert InOrder(s, le, i - 1, j - 1); }
    }
  }

  lemma {:induction false} InsertSorted<T(!new)>(x: T, s: seq<T>, le: (T, T) -> bool)
    requires TotalPreorder(le) && Sorted(s, le)
    ensures Sorted(Insert(x, s, le), le)
    decreases |s|
  {
    if s == [] {
    } else if le(x, s[0]) {
      forall k | 0 <= k < |s| ensures le(x, s[k]) {
        assert InOrder(s, le, 0, k);
      }
      SortedCons(x, s, le);
    } else {
      SortedTail(s, le);
      InsertSorted(x, s[1..], le);
      var t := Insert(x, s[1..], le);
      forall k | 0 <= k < |t| ensures le(s[0], t[k]) {
        assert t[k] in multiset(t);
        if t[k] != x {
          assert t[k] in s[1..];
          var i :| 0 <= i < |s[1..]| && s[1..][i] == t[k];
          assert InOrder(s, le, 0, i + 1);
        }
      }
      SortedCons(s[0], t, le);
    }
  }

  lemma {:induction false} SortSorted<T(!new)>(s: seq<T>, le: (T, T) -> bool)
    requires TotalPreorder(le)
    ensures Sorted(Sort(s, le), le)
    decreases |s|
  {
    if s != [] {
      SortSorted(s[1..], le);
      InsertSorted(s[0], Sort(s[1..], le), le);
    }
  }

  lemma HeadIsLeast<T(!new)>(a: seq<T>, x: T, le: (T, T) -> bool)
    requires TotalPreorder(le) && Sorted(a, le) && x in multiset(a)
    ensures a != [] && le(a[0], x)
  {
    var i :| 0 <= i < |a| && a[i] == x;
    assert le(x, x) && InOrder(a, le, 0, i);
  }

  /** A multiset has one sorted arrangement. */
  lemma {:induction false} SortedUnique<T(!new)>(a: seq<T>, b: seq<T>, le: (T, T) -> bool)
    requires TotalOrder(le) && Sorted(a, le) && Sorted(b, le)
    requires multiset(a) == multiset(b)
    ensures a == b
    decreases |a|
  {
    assert |multiset(a)| == |multiset(b)|;
    if a != [] {
      assert a[0] == b[0] by {
        assert b[0] in multiset(b) && a[0] in multiset(a);
        HeadIsLeast(a, b[0], le);
        HeadIsLeast(b, a[0], le);
      }
      TailMultiset(a);
      TailMultiset(b);
      SortedTail(a, le);
      SortedTail(b, le);
      SortedUnique(a[1..], b[1..], le);
      assert a == [a[0]] + a[1..] && b == [b[0]] + b[1..];
    }
  }

  lemma TailMultiset<T>(a: seq<T>)
    requires a != []
    ensures multiset(a[1..]) == multiset(a) - multiset{a[0]}
  {
    assert a == [a[0]] + a[1..];
  }

  /** Reordering the input of a sort does not change its output. */
  lemma SortCanonical<T(!new)>(a: seq<T>, b: seq<T>, le: (T, T) -> bool)
    requires TotalOrder(le) && multiset(a) == multiset(b)
    ensures Sort(a, le) == Sort(b, le)
  {
    SortSorted(a, le);
    SortSorted(b, le);
    SortedUnique(Sort(a, le), Sort(b, le), le);
  }

  /** r is s in sorted order: the outcome of sort.Strings. */
  ghost predicate SortedStrings(r: seq<string>, s: seq<string>) {
    Sorted(r, AtMost) && multiset(r) == multiset(s)
  }

  method SortStrings(s: seq<string>) returns (r: seq<string>)
    ensures SortedStrings(r, s)
    ensures |r| == |s|
  {
    AtMostTotalOrder();
    SortSorted(s, AtMost);
    r := Sort(s, AtMost);
  }

  lemma SortedStringsUnique(a: seq<string>, b: seq<string>, s: seq<string>, t: seq<string>)
    requires SortedStrings(a, s) && SortedStrings(b, t) && multiset(s) == multiset(t)
    ensures a == b
  {
    AtMostTotalOrder();
    SortedUnique(a, b, AtMost);
  }

  lemma MemberOfSorted(r: seq<string>, s: seq<string>)
    requires SortedStrings(r, s)
    ensures forall x :: x in r <==> x in s
  {
    assert forall x :: x in s <==> x in multiset(s);
    assert forall x :: x in r <==> x in multiset(r);
  }
}
