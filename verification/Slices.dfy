/** Slices of sequences: facts that larger proofs name instead of searching for them, and Python's slice bounds. */
module Slices {

  lemma DropDrop<T>(s: seq<T>, u: nat, v: nat)
    requires u + v <= |s|
    ensures s[u..][v..] == s[u + v..]
  {
  }

  lemma TakeTake<T>(s: seq<T>, u: nat, v: nat)
    requires u + v <= |s|
    ensures s[..u] + s[u..][..v] == s[..u + v]
  {
  }

  lemma SliceOfSlice<T>(s: seq<T>, a: nat, b: nat, c: nat, d: nat)
    requires c <= d && a + d <= b <= |s|
    ensures s[a..b][c..d] == s[a + c..a + d]
  {
    forall i | 0 <= i < d - c ensures s[a..b][c..d][i] == s[a + c..a + d][i] {
      assert s[a..b][c + i] == s[a + c + i];
    }
  }

  lemma TakeSnoc<T>(s: seq<T>, n: nat)
    requires 1 <= n <= |s|
    ensures s[..n - 1] + [s[n - 1]] == s[..n]
  {
  }

  lemma Assoc<T>(a: seq<T>, b: seq<T>, c: seq<T>)
    ensures (a + b) + c == a + (b + c)
  {
  }

  lemma Uncons<T>(x: T, s: seq<T>)
    ensures ([x] + s)[1..] == s && ([x] + s)[0] == x
  {
  }

  /** An end of a Python slice: negative counts from the end, and nothing is out of range. */
  function Bound(len: nat, i: int): (r: nat)
    ensures r <= len
  {
    if i < 0 then (if len + i < 0 then 0 else len + i) else if i < len then i else len
  }

  function PySlice<T>(s: seq<T>, from: int, to: int): seq<T> {
    var a, b := Bound(|s|, from), Bound(|s|, to);
    if a <= b then s[a..b] else []
  }
}
