/**
 Generic facts about sequences used by the vectorizer model: duplicate-freedom,
 flattening a list of lists, occurrence counts and first positions.
 */
module Seqs {

  /** No element occurs twice in `s`. */
  predicate NoDup<T(==)>(s: seq<T>)
  {
    forall i, j :: 0 <= i < j < |s| ==> s[i] != s[j]
  }

  /** Concatenation of the inner lists, in order (a nested list comprehension). */
  function Flatten<T>(xss: seq<seq<T>>): (r: seq<T>)
    ensures forall i, k :: 0 <= i < |xss| && 0 <= k < |xss[i]| ==> xss[i][k] in r
    ensures forall x :: x in r ==> exists i :: 0 <= i < |xss| && x in xss[i]
  {
    if xss == [] then []
    else
      var rest := Flatten(xss[1..]);
      assert forall i, k :: 1 <= i < |xss| && 0 <= k < |xss[i]| ==> xss[1..][i - 1][k] == xss[i][k];
      xss[0] + rest
  }

  /** How many times `x` occurs in `s`. */
  function Occurrences<T(==)>(s: seq<T>, x: T): (n: nat)
    ensures n <= |s|
    ensures n == 0 <==> x !in s
  {
    if s == [] then 0
    else Occurrences(s[..|s| - 1], x) + (if s[|s| - 1] == x then 1 else 0)
  }

  /** The position of the first occurrence of `x` in `s`. */
  function FirstIndex<T(==)>(s: seq<T>, x: T): (k: nat)
    requires x in s
    ensures k < |s| && s[k] == x
    ensures forall m :: 0 <= m < k ==> s[m] != x
  {
    if s[0] == x then 0 else 1 + FirstIndex(s[1..], x)
  }

  /** Appending an element does not move the first occurrence of an element already present. */
  lemma {:induction false} FirstIndexSnoc<T>(s: seq<T>, y: T, x: T)
    requires x in s
    ensures x in s + [y] && FirstIndex(s + [y], x) == FirstIndex(s, x)
  {
    var k := FirstIndex(s, x);
    var k' := FirstIndex(s + [y], x);
    assert (s + [y])[k] == x;
    assert k' <= k;
    assert s[k'] == x;
  }

  /**
   A duplicate-free sequence whose elements all occur in `b` is no longer than `b`
   (the pigeonhole principle for sequences).
   */
  lemma {:induction false} NoDupLength<T>(a: seq<T>, b: seq<T>)
    requires NoDup(a)
    requires forall x :: x in a ==> x in b
    ensures |a| <= |b|
  {
    if a != [] {
      var x := a[|a| - 1];
      var k := FirstIndex(b, x);
      var b' := b[..k] + b[k + 1..];
      var a' := a[..|a| - 1];
      forall y | y in a' ensures y in b' {
        var i :| 0 <= i < |a'| && a'[i] == y;
        assert a[i] == y && a[|a| - 1] == x && y in a;
        var m :| 0 <= m < |b| && b[m] == y;
        if m < k {
          assert b'[m] == y;
        } else {
          assert m != k;
          assert b'[m - 1] == y;
        }
      }
      NoDupLength(a', b');
    }
  }
}
