/** What arrives in pieces, put together, and where something stands in a sequence. */
module Parts {

  function Join<T>(parts: seq<seq<T>>): seq<T> {
    if parts == [] then [] else parts[0] + Join(parts[1..])
  }

  lemma {:induction false} JoinSnoc<T>(parts: seq<seq<T>>, last: seq<T>)
    ensures Join(parts + [last]) == Join(parts) + last
    decreases |parts|
  {
    if parts == [] {
      assert parts + [last] == [last];
      assert Join([last]) == last + Join([]);
    } else {
      assert (parts + [last])[1..] == parts[1..] + [last];
      JoinSnoc(parts[1..], last);
    }
  }

  lemma JoinNext<T>(parts: seq<seq<T>>, n: nat)
    requires n < |parts|
    ensures Join(parts[..n + 1]) == Join(parts[..n]) + parts[n]
  {
    JoinSnoc(parts[..n], parts[n]);
    assert parts[..n + 1] == parts[..n] + [parts[n]];
  }

  /** Where the first `x` stands; the end if there is none. */
  function IndexOf<T(==)>(s: seq<T>, x: T): (k: nat)
    ensures k <= |s| && (k < |s| ==> s[k] == x) && forall j | 0 <= j < k :: s[j] != x
  {
    if s == [] || s[0] == x then 0 else 1 + IndexOf(s[1..], x)
  }

  lemma NothingYet<T>(parts: seq<seq<T>>)
    ensures Join(parts[..0]) == []
  {}
}
