/** Counting and searching sequences by a predicate. */
module Counting {
  import opened Wrappers

  function Bit(b: bool): nat { if b then 1 else 0 }

  function Count<T>(s: seq<T>, p: T -> bool): nat {
    if s == [] then 0 else Count(s[..|s| - 1], p) + Bit(p(s[|s| - 1]))
  }

  lemma {:induction false} CountUpdate<T>(s: seq<T>, k: nat, x: T, p: T -> bool)
    requires k < |s|
    ensures Count(s[k := x], p) + Bit(p(s[k])) == Count(s, p) + Bit(p(x))
  {
    var n := |s| - 1;
    if k == n {
      assert s[k := x][..n] == s[..n];
    } else {
      CountUpdate(s[..n], k, x, p);
      assert s[k := x][..n] == s[..n][k := x];
    }
  }

  lemma {:induction false} CountLe<T>(s: seq<T>, t: seq<T>, p: T -> bool, q: T -> bool)
    requires |s| == |t| && forall i :: 0 <= i < |s| && p(s[i]) ==> q(t[i])
    ensures Count(s, p) <= Count(t, q)
  {
    if s != [] {
      CountLe(s[..|s| - 1], t[..|s| - 1], p, q);
    }
  }

  lemma CountSame<T>(s: seq<T>, t: seq<T>, p: T -> bool, q: T -> bool)
    requires |s| == |t| && forall i :: 0 <= i < |s| ==> p(s[i]) == q(t[i])
    ensures Count(s, p) == Count(t, q)
  {
  }

  lemma {:induction false} CountZero<T>(s: seq<T>, p: T -> bool)
    ensures Count(s, p) == 0 <==> forall i :: 0 <= i < |s| ==> !p(s[i])
    ensures Count(s, p) <= |s|
  {
    if s != [] {
      CountZero(s[..|s| - 1], p);
      if Count(s, p) == 0 {
        forall i | 0 <= i < |s| ensures !p(s[i]) {
          if i < |s| - 1 { assert s[i] == s[..|s| - 1][i]; }
        }
      } else if !p(s[|s| - 1]) {
        var i :| 0 <= i < |s| - 1 && p(s[..|s| - 1][i]);
        assert p(s[i]);
      }
    }
  }

  /** Distinct elements of a set are no more than the set has. */
  lemma {:induction false} DistinctFit<T>(s: seq<T>, u: set<T>)
    requires (forall k, l :: 0 <= k < l < |s| ==> s[k] != s[l]) && (forall k :: 0 <= k < |s| ==> s[k] in u)
    ensures |s| <= |u|
  {
    if s != [] {
      DistinctFit(s[..|s| - 1], u - {s[|s| - 1]});
    }
  }

  /** The first index whose element satisfies `p`, or `|s|`. */
  function FindFirst<T>(s: seq<T>, p: T -> bool): (k: nat)
    ensures k <= |s|
    ensures forall j :: 0 <= j < k ==> !p(s[j])
    ensures k < |s| ==> p(s[k])
  {
    if s == [] then 0
    else
      var k := FindFirst(s[..|s| - 1], p);
      assert forall j :: 0 <= j < k ==> s[j] == s[..|s| - 1][j];
      if k < |s| - 1 || p(s[|s| - 1]) then k else |s|
  }

  /** The first index of least `key` among the elements satisfying `p`. */
  function FindLeast<T>(s: seq<T>, p: T -> bool, key: T -> nat): (r: Option<nat>)
    ensures r.None? <==> forall j :: 0 <= j < |s| ==> !p(s[j])
    ensures r.Some? ==>
              && r.value < |s| && p(s[r.value])
              && (forall j :: 0 <= j < |s| && p(s[j]) ==> key(s[r.value]) <= key(s[j]))
              && (forall j :: 0 <= j < r.value && p(s[j]) ==> key(s[r.value]) < key(s[j]))
  {
    if s == [] then None
    else
      var n := |s| - 1;
      var r := FindLeast(s[..n], p, key);
      assert forall j :: 0 <= j < n ==> s[j] == s[..n][j];
      if p(s[n]) && (r.None? || key(s[n]) < key(s[r.value])) then Some(n) else r
  }
}
