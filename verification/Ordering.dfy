/** Sorting by a text key, in the order of Rust strings: code point by code point, a prefix first. */
module Ordering {
  predicate AtMost(a: string, b: string) {
    if a == "" then true
    else if b == "" then false
    else a[0] < b[0] || (a[0] == b[0] && AtMost(a[1..], b[1..]))
  }

  lemma {:induction false} Total(a: string, b: string)
    ensures AtMost(a, b) || AtMost(b, a)
    ensures AtMost(a, b) && AtMost(b, a) ==> a == b
  {
    if a != "" && b != "" {
      Total(a[1..], b[1..]);
      assert a == [a[0]] + a[1..] && b == [b[0]] + b[1..];
    }
  }

  lemma {:induction false} Transitive(a: string, b: string, c: string)
    requires AtMost(a, b) && AtMost(b, c)
    ensures AtMost(a, c)
  {
    if a != "" && a[0] == b[0] == c[0] {
      Transitive(a[1..], b[1..], c[1..]);
    }
  }

  /** The texts first differ at `k`, and `a` has the smaller character there. */
  predicate SmallerAt(a: string, b: string, k: int) {
    0 <= k < |a| && k < |b| && a[..k] == b[..k] && a[k] < b[k]
  }

  /** `a` is a prefix of `b`, or smaller where they first differ. */
  lemma {:induction false} AtMostIff(a: string, b: string)
    ensures AtMost(a, b) <==> a <= b || exists k :: SmallerAt(a, b, k)
  {
    if a != "" && b != "" {
      AtMostIff(a[1..], b[1..]);
      assert a == [a[0]] + a[1..] && b == [b[0]] + b[1..];
      if a[0] < b[0] {
        assert SmallerAt(a, b, 0);
      }
      if a[0] == b[0] && exists k :: SmallerAt(a[1..], b[1..], k) {
        var k :| SmallerAt(a[1..], b[1..], k);
        assert a[..k + 1] == [a[0]] + a[1..][..k] && b[..k + 1] == [b[0]] + b[1..][..k];
        assert SmallerAt(a, b, k + 1);
      }
      if exists k :: SmallerAt(a, b, k) {
        var k :| SmallerAt(a, b, k);
        if k > 0 {
          assert a[..k][0] == b[..k][0];
          assert a[1..][..k - 1] == a[..k][1..] && b[1..][..k - 1] == b[..k][1..];
          assert SmallerAt(a[1..], b[1..], k - 1);
        }
      }
    }
  }

  predicate SortedBy<T>(s: seq<T>, key: T -> string) {
    forall j, k :: 0 <= j < k < |s| ==> AtMost(key(s[j]), key(s[k]))
  }

  /** Put one more element in its place. */
  method Insert<T>(s: seq<T>, x: T, key: T -> string) returns (k: nat, r: seq<T>)
    requires SortedBy(s, key)
    ensures k <= |s| && r == s[..k] + [x] + s[k..] && SortedBy(r, key)
  {
    k := 0;
    while k < |s| && AtMost(key(s[k]), key(x))
      invariant k <= |s| && forall j :: 0 <= j < k ==> AtMost(key(s[j]), key(x))
    {
      k := k + 1;
    }
    r := s[..k] + [x] + s[k..];
    InPlace(s, x, key, k);
  }

  lemma InPlace<T>(s: seq<T>, x: T, key: T -> string, k: nat)
    requires k <= |s| && SortedBy(s, key) && forall j :: 0 <= j < k ==> AtMost(key(s[j]), key(x))
    requires k < |s| ==> !AtMost(key(s[k]), key(x))
    ensures SortedBy(s[..k] + [x] + s[k..], key)
  {
    forall j | k <= j < |s|
      ensures AtMost(key(x), key(s[j]))
    {
      Total(key(s[k]), key(x));
      if k < j {
        Transitive(key(x), key(s[k]), key(s[j]));
      }
    }
    var r := s[..k] + [x] + s[k..];
    assert forall j :: 0 <= j < |r| ==> r[j] == if j < k then s[j] else if j == k then x else s[j - 1];
  }

  /** An insertion adds the new element and keeps the order of the others. */
  lemma Inserted<T>(s: seq<T>, x: T, k: nat)
    requires k <= |s|
    ensures var r := s[..k] + [x] + s[k..];
            && |r| == |s| + 1
            && (forall y :: y in r <==> y in s || y == x)
            && forall j :: 0 <= j < |r| ==> r[j] == if j < k then s[j] else if j == k then x else s[j - 1]
  {
    var r := s[..k] + [x] + s[k..];
    assert r[k] == x;
    assert forall j :: 0 <= j < |s| ==> s[j] == r[if j < k then j else j + 1];
  }
}
