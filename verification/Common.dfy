/** Shared vocabulary: optional values, bytes, codecs, ordered sets and increasing sequences. */
module Common {

  datatype Option<+T> = None | Some(value: T)

  type byte = b: nat | b < 256
  type Bytes = seq<byte>

  /** The number of values of a 64-bit counter. */
  const U64: nat := 0x1_0000_0000_0000_0000

  /** A 64-bit increment, wrapping as in a release build. */
  function Next64(n: nat): nat {
    (n + 1) % U64
  }

  /** A serialisation format, given by its two directions. */
  datatype Codec<!T> = Codec(encode: T -> Bytes, decode: Bytes -> Option<T>)

  ghost predicate Faithful<T(!new)>(c: Codec<T>) {
    forall x: T :: c.decode(c.encode(x)) == Some(x)
  }

  lemma HasLeast(s: set<nat>)
    requires s != {}
    ensures exists k :: k in s && forall j :: j in s ==> k <= j
  {
    var x :| x in s;
    if s - {x} == {} {
      assert s == {x};
    } else {
      HasLeast(s - {x});
      var k :| k in s - {x} && forall j :: j in s - {x} ==> k <= j;
      var m := if x < k then x else k;
      forall j | j in s ensures m <= j {
        assert j == x || j in s - {x};
      }
    }
  }

  /** The smallest element: the first entry of an ordered set or map. */
  function Least(s: set<nat>): (k: nat)
    requires s != {}
    ensures k in s && forall j :: j in s ==> k <= j
  {
    HasLeast(s);
    var k :| k in s && forall j :: j in s ==> k <= j;
    k
  }

  /** The elements greater than n. */
  function Above(s: set<nat>, n: nat): set<nat> {
    set h | h in s && h > n
  }

  ghost predicate Increasing(s: seq<nat>) {
    forall i, j :: 0 <= i < j < |s| ==> s[i] < s[j]
  }

  ghost predicate NoDuplicates<T>(s: seq<T>) {
    forall i, j :: 0 <= i < j < |s| ==> s[i] != s[j]
  }

  lemma IncreasingSnoc(s: seq<nat>, x: nat)
    requires Increasing(s) && forall y :: y in s ==> y < x
    ensures Increasing(s + [x])
  {
    assert forall i :: 0 <= i < |s| ==> s[i] in s;
  }

  /** An increasing sequence is determined by its elements. */
  lemma {:induction false} IncreasingUnique(a: seq<nat>, b: seq<nat>)
    requires Increasing(a) && Increasing(b)
    requires forall x :: x in a <==> x in b
    ensures a == b
  {
    assert a != [] ==> a[0] in b;
    assert b != [] ==> b[0] in a;
    if a != [] && b != [] {
      var m, n := |a| - 1, |b| - 1;
      assert a[m] in b && b[n] in a;
      assert a[m] == b[n];
      forall x ensures x in a[..m] <==> x in b[..n] {
        if x in a[..m] { assert x in b; assert x < a[m]; }
        if x in b[..n] { assert x in a; assert x < b[n]; }
      }
      IncreasingUnique(a[..m], b[..n]);
      assert a == a[..m] + [a[m]] && b == b[..n] + [b[n]];
    }
  }

  /** The numbers below n. */
  function Below(n: nat): (s: set<nat>)
    ensures forall i: nat :: i in s <==> i < n
    ensures |s| == n
  {
    if n == 0 then {} else Below(n - 1) + {n - 1}
  }

  lemma SubsetSize<T>(a: set<T>, b: set<T>)
    requires a <= b
    ensures |a| <= |b|
    ensures |a| == |b| ==> a == b
  {
    assert b == a + (b - a);
    assert |b| == |a| + |b - a|;
  }
}
