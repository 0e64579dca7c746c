/** Stable sorting, and why only one result is possible. */
module StableSort {

  ghost predicate TotalPreorder<T(!new)>(le: (T, T) -> bool) {
    && (forall x, y :: le(x, y) || le(y, x))
    && (forall x, y, z :: le(x, y) && le(y, z) ==> le(x, z))
  }

  predicate Same<T>(le: (T, T) -> bool, x: T, y: T) {
    le(x, y) && le(y, x)
  }

  ghost predicate Sorted<T>(s: seq<T>, le: (T, T) -> bool) {
    forall i, j :: 0 <= i < j < |s| ==> le(s[i], s[j])
  }

  /** The elements of `s` equivalent to `x`, in order. */
  function Class<T(!new)>(s: seq<T>, le: (T, T) -> bool, x: T): (r: seq<T>)
    ensures forall y :: y in r <==> y in s && Same(le, x, y)
  {
    if s == [] then []
    else if Same(le, x, s[0]) then [s[0]] + Class(s[1..], le, x)
    else Class(s[1..], le, x)
  }

  /** `t` is `s` sorted by `le`, equivalent elements in their original order. */
  ghost predicate IsStableSort<T(!new)>(s: seq<T>, t: seq<T>, le: (T, T) -> bool) {
    Sorted(t, le) && forall x :: Class(t, le, x) == Class(s, le, x)
  }

  function Insert<T(!new)>(x: T, s: seq<T>, le: (T, T) -> bool): (r: seq<T>)
    ensures multiset(r) == multiset(s) + multiset{x}
  {
    if s == [] then [x]
    else if le(x, s[0]) then [x] + s
    else
      assert s == [s[0]] + s[1..];
      [s[0]] + Insert(x, s[1..], le)
  }

  /** A stable sort: each element goes before the equivalent ones that followed it. */
  function Sort<T(!new)>(s: seq<T>, le: (T, T) -> bool): (r: seq<T>)
    ensures multiset(r) == multiset(s)
    ensures |r| == |s|
    ensures forall x :: x in r <==> x in s
  {
    if s == [] then []
    else
      assert s == [s[0]] + s[1..];
      var r := Insert(s[0], Sort(s[1..], le), le);
      assert forall x :: x in r <==> x in multiset(r);
      assert forall x :: x in s <==> x in multiset(s);
      assert |r| == |multiset(r)| == |multiset(s)|;
      r
  }

  lemma {:induction false} InsertSorted<T(!new)>(x: T, s: seq<T>, le: (T, T) -> bool)
    requires TotalPreorder(le) && Sorted(s, le)
    ensures Sorted(Insert(x, s, le), le)
  {
    if s != [] && !le(x, s[0]) {
      InsertSorted(x, s[1..], le);
      var r := Insert(x, s[1..], le);
      forall y | y in r ensures le(s[0], y) {
        assert y in multiset(r);
        assert y == x || y in s[1..];
      }
    }
  }

  lemma {:induction false} InsertClass<T(!new)>(x: T, s: seq<T>, le: (T, T) -> bool, c: T)
    requires TotalPreorder(le)
    ensures Class(Insert(x, s, le), le, c) == Class([x] + s, le, c)
  {
    if s == [] || le(x, s[0]) {
      if s == [] { assert [x] + s == [x]; }
    } else {
      InsertClass(x, s[1..], le, c);
      var r := Insert(x, s[1..], le);
      assert ([s[0]] + r)[1..] == r;
      assert ([x] + s)[1..] == s;
      assert ([x] + s[1..])[1..] == s[1..];
      // x and s[0] are not equivalent, so at most one of them is in the class of c
      assert !(Same(le, c, x) && Same(le, c, s[0]));
    }
  }

  /** Sort meets its specification for every total preorder. */
  lemma {:induction false} SortIsStable<T(!new)>(s: seq<T>, le: (T, T) -> bool)
    requires TotalPreorder(le)
    ensures IsStableSort(s, Sort(s, le), le)
  {
    if s != [] {
      var t := Sort(s[1..], le);
      SortIsStable(s[1..], le);
      InsertSorted(s[0], t, le);
      forall c ensures Class(Sort(s, le), le, c) == Class(s, le, c) {
        InsertClass(s[0], t, le, c);
        assert ([s[0]] + t)[1..] == t;
      }
    }
  }

  /** There is only one stable sort: sortedness and class order fix the whole sequence. */
  lemma {:induction false} StableSortUnique<T(!new)>(s: seq<T>, a: seq<T>, b: seq<T>, le: (T, T) -> bool)
    requires TotalPreorder(le)
    requires IsStableSort(s, a, le) && IsStableSort(s, b, le)
    ensures a == b
  {
    SortedUnique(a, b, le);
  }

  lemma ClassTail<T(!new)>(s: seq<T>, le: (T, T) -> bool, x: T)
    requires s != []
    ensures Class(s[1..], le, x) == if Same(le, x, s[0]) then Class(s, le, x)[1..] else Class(s, le, x)
  {
  }

  lemma {:induction false} SortedUnique<T(!new)>(a: seq<T>, b: seq<T>, le: (T, T) -> bool)
    requires TotalPreorder(le)
    requires Sorted(a, le) && Sorted(b, le)
    requires forall x :: Class(a, le, x) == Class(b, le, x)
    ensures a == b
  {
    assert b != [] ==> b[0] in Class(b, le, b[0]);
    if a != [] {
      assert a[0] in Class(a, le, a[0]);
      assert a[0] in b && b[0] in a;
      assert Same(le, a[0], b[0]);
      assert Class(a, le, a[0])[0] == a[0];
      assert Class(b, le, a[0])[0] == b[0];
      forall x ensures Class(a[1..], le, x) == Class(b[1..], le, x) {
        ClassTail(a, le, x);
        ClassTail(b, le, x);
        assert Class(a, le, x) == Class(b, le, x);
        assert Same(le, x, a[0]) <==> Same(le, x, b[0]);
      }
      SortedUnique(a[1..], b[1..], le);
      assert a == [a[0]] + a[1..];
      assert b == [b[0]] + b[1..];
    }
  }

  lemma SortOfSorted<T(!new)>(s: seq<T>, le: (T, T) -> bool)
    requires TotalPreorder(le) && Sorted(s, le)
    ensures Sort(s, le) == s
  {
    SortIsStable(s, le);
    SortedUnique(Sort(s, le), s, le);
  }

  // ---- Sorting by one order, then by another ----

  /** First by `p`; where `p` does not decide, by `q`. */
  predicate Lex<T>(p: (T, T) -> bool, q: (T, T) -> bool, x: T, y: T) {
    p(x, y) && (!p(y, x) || q(x, y))
  }

  lemma LexPreorder<T(!new)>(p: (T, T) -> bool, q: (T, T) -> bool)
    requires TotalPreorder(p) && TotalPreorder(q)
    ensures TotalPreorder((x, y) => Lex(p, q, x, y))
  {
  }

  /** Taking classes by two orders, in either order, is taking the class of both. */
  lemma {:induction false} ClassOfClass<T(!new)>(s: seq<T>, p: (T, T) -> bool, q: (T, T) -> bool, le: (T, T) -> bool, x: T)
    requires forall y :: Same(le, x, y) <==> Same(p, x, y) && Same(q, x, y)
    ensures Class(Class(s, p, x), q, x) == Class(s, le, x)
  {
    if s != [] {
      ClassOfClass(s[1..], p, q, le, x);
      if Same(p, x, s[0]) {
        var rest := Class(s[1..], p, x);
        assert ([s[0]] + rest)[1..] == rest;
      }
    }
  }

  /** Two elements of a class stand in the class in the order they stand in the sequence. */
  lemma {:induction false} ClassSorted<T(!new)>(s: seq<T>, p: (T, T) -> bool, q: (T, T) -> bool, x: T)
    requires Sorted(s, q)
    ensures Sorted(Class(s, p, x), q)
  {
    if s != [] {
      ClassSorted(s[1..], p, q, x);
      forall y | y in Class(s[1..], p, x) ensures q(s[0], y) {
        assert y in s[1..];
        var i :| 0 <= i < |s[1..]| && s[1..][i] == y;
        assert s[i + 1] == y;
      }
    }
  }

  /** What comes later in the sequence and is in the class comes later in the class. */
  lemma {:induction false} SortedFromClass<T(!new)>(s: seq<T>, p: (T, T) -> bool, q: (T, T) -> bool, i: nat, j: nat)
    requires TotalPreorder(p) && i < j < |s| && Same(p, s[i], s[j])
    requires Sorted(Class(s, p, s[i]), q)
    ensures q(s[i], s[j])
  {
    var c := Class(s, p, s[i]);
    if i == 0 {
      assert s[j] == s[1..][j - 1] && s[j] in Class(s[1..], p, s[0]);
      assert c == [s[0]] + Class(s[1..], p, s[0]);
      var k :| 0 <= k < |Class(s[1..], p, s[0])| && Class(s[1..], p, s[0])[k] == s[j];
      assert c[0] == s[0] && c[k + 1] == s[j];
    } else {
      var rest := Class(s[1..], p, s[i]);
      assert s[1..][i - 1] == s[i] && s[1..][j - 1] == s[j];
      ClassTail(s, p, s[i]);
      assert Sorted(rest, q);
      SortedFromClass(s[1..], p, q, i - 1, j - 1);
    }
  }

  /** A stable sort by `p` of a stable sort by `q` is a stable sort by both. */
  lemma {:induction false} SortAfterSort<T(!new)>(s: seq<T>, p: (T, T) -> bool, q: (T, T) -> bool)
    requires TotalPreorder(p) && TotalPreorder(q)
    ensures Sort(Sort(s, q), p) == Sort(s, (x, y) => Lex(p, q, x, y))
  {
    var both := (x, y) => Lex(p, q, x, y);
    var u := Sort(s, q);
    var t := Sort(u, p);
    SortIsStable(s, q);
    SortIsStable(u, p);
    LexPreorder(p, q);
    assert Sorted(t, both) by {
      forall i, j | 0 <= i < j < |t| ensures both(t[i], t[j]) {
        if Same(p, t[i], t[j]) {
          assert Class(t, p, t[i]) == Class(u, p, t[i]);
          ClassSorted(u, p, q, t[i]);
          SortedFromClass(t, p, q, i, j);
        }
      }
    }
    forall x ensures Class(t, both, x) == Class(s, both, x) {
      ClassOfClass(t, p, q, both, x);
      ClassOfClass(u, p, q, both, x);
      ClassOfClass(u, q, p, both, x);
      ClassOfClass(s, q, p, both, x);
    }
    SortIsStable(s, both);
    StableSortUnique(s, t, Sort(s, both), both);
  }
}
