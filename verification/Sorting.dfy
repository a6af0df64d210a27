/** The in-place insertion sort both body rewrites run over their few edits, by offset
    (gateway/src/splice.cpp and provider/src/translate_body.cpp).
 */
module Sorting {

  ghost predicate Distinct<T(!new)>(s: seq<T>, key: T -> nat) {
    forall p, q | 0 <= p < q < |s| :: key(s[p]) != key(s[q])
  }

  ghost predicate Ascending<T(!new)>(s: seq<T>, key: T -> nat) {
    forall p, q | 0 <= p < q < |s| :: key(s[p]) < key(s[q])
  }

  ghost predicate SameElements<T(!new)>(s: seq<T>, t: seq<T>) { forall x :: x in s <==> x in t }

  function Swapped<T>(s: seq<T>, j: nat): seq<T>
    requires 0 < j < |s|
  {
    s[j - 1 := s[j]][j := s[j - 1]]
  }

  lemma SwappedKeeps<T(!new)>(s: seq<T>, j: nat, key: T -> nat)
    requires 0 < j < |s| && Distinct(s, key)
    ensures Distinct(Swapped(s, j), key) && SameElements(Swapped(s, j), s)
  {
    var t := Swapped(s, j);
    forall x ensures x in t <==> x in s {
      if x in s { var k :| 0 <= k < |s| && s[k] == x; assert t[if k == j then j - 1 else if k == j - 1 then j else k] == x; }
    }
  }

  method SortByOffset<T(!new)>(a: array<T>, n: nat, key: T -> nat)
    requires n <= a.Length && Distinct(a[..n], key)
    modifies a
    ensures Ascending(a[..n], key) && SameElements(a[..n], old(a[..n]))
  {
    var i := 1;
    while i < n
      invariant n <= 1 || i <= n
      invariant Distinct(a[..n], key) && SameElements(a[..n], old(a[..n]))
      invariant forall p, q | 0 <= p < q < i && q < n :: key(a[p]) < key(a[q])
    {
      var j := i;
      while j > 0 && key(a[j - 1]) > key(a[j])
        invariant 0 <= j <= i < n
        invariant Distinct(a[..n], key) && SameElements(a[..n], old(a[..n]))
        invariant forall p, q | 0 <= p < q <= i && q != j :: key(a[p]) < key(a[q])
      {
        SwappedKeeps(a[..n], j, key);
        ghost var was := a[..n];
        a[j - 1], a[j] := a[j], a[j - 1];
        assert a[..n] == Swapped(was, j);
        j := j - 1;
      }
      if j > 0 { assert a[..n][j - 1] == a[j - 1] && a[..n][j] == a[j]; }
      i := i + 1;
    }
  }

  /** A sorted listing of the same elements is the same listing. */
  lemma {:induction false} SameAscending<T(!new)>(s: seq<T>, t: seq<T>, key: T -> nat)
    requires Ascending(s, key) && Ascending(t, key) && SameElements(s, t)
    ensures s == t
    decreases |s|
  {
    assert |t| > 0 ==> t[0] in t;
    if s != [] {
      assert s[0] in t;
      assert t != [] && t[0] in s;
      var i :| 0 <= i < |t| && t[i] == s[0];
      var j :| 0 <= j < |s| && s[j] == t[0];
      assert s[0] == t[0];
      forall x ensures x in s[1..] <==> x in t[1..] { RestElements(s, t, key, x); RestElements(t, s, key, x); }
      SameAscending(s[1..], t[1..], key);
    }
  }

  lemma RestElements<T(!new)>(s: seq<T>, t: seq<T>, key: T -> nat, x: T)
    requires s != [] && t != [] && s[0] == t[0] && Ascending(s, key) && SameElements(s, t)
    ensures x in s[1..] ==> x in t[1..]
  {
    if x in s[1..] {
      var k :| 0 <= k < |s[1..]| && s[1..][k] == x;
      assert x == s[k + 1] && x in s && x in t;
      var l :| 0 <= l < |t| && t[l] == x;
      assert l > 0 && t[1..][l - 1] == x;
    }
  }
}
