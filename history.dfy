/** The image history entries the three providers read, and the in-place ordering by
    creation time that each provider applies before it turns entries into lines
    (sort.Sort with `Less` comparing `Created`). */
module History {

  /** docker's image.HistoryResponseItem, reduced to the fields the provider reads. */
  datatype DockerEntry = DockerEntry(created: int, createdBy: string, comment: string, size: int)

  /** The OCI v1.History entry podman and the registry return, reduced likewise. */
  datatype LayerEntry = LayerEntry(created: int, createdBy: string, comment: string, emptyLayer: bool)

  function DockerCreated(e: DockerEntry): int { e.created }

  function LayerCreated(e: LayerEntry): int { e.created }

  /** The entries are in ascending order of `key`. */
  ghost predicate SortedBy<T>(s: seq<T>, key: T -> int) {
    forall i, j :: 0 <= i < j < |s| ==> key(s[i]) <= key(s[j])
  }

  /** `o` is `items` in ascending order of `key`. */
  ghost predicate IsOrdering<T>(o: seq<T>, items: seq<T>, key: T -> int) {
    SortedBy(o, key) && multiset(o) == multiset(items)
  }

  /** Orders `a` in place by ascending `key`.  Entries with equal keys may end in any order,
      as sort.Sort does not promise stability. */
  method SortBy<T>(a: array<T>, key: T -> int)
    modifies a
    ensures SortedBy(a[..], key)
    ensures multiset(a[..]) == multiset(old(a[..]))
  {
    if a.Length == 0 {
      return;
    }
    for i := 1 to a.Length
      invariant SortedBy(a[..i], key)
      invariant multiset(a[..]) == multiset(old(a[..]))
    {
      InsertLast(a, key, i);
    }
    assert a[..a.Length] == a[..];
  }

  /** Moves `a[i]` back into the sorted prefix `a[..i]`, so that `a[..i + 1]` is sorted. */
  method InsertLast<T>(a: array<T>, key: T -> int, i: int)
    requires 0 < i < a.Length
    requires SortedBy(a[..i], key)
    modifies a
    ensures SortedBy(a[..i + 1], key)
    ensures multiset(a[..]) == multiset(old(a[..]))
  {
    var j := i;
    while j > 0 && key(a[j - 1]) > key(a[j])
      invariant 0 <= j <= i
      invariant forall p, q :: 0 <= p < q <= i && p != j && q != j ==> key(a[p]) <= key(a[q])
      invariant forall q :: j < q <= i ==> key(a[j]) < key(a[q])
      invariant multiset(a[..]) == multiset(old(a[..]))
      decreases j
    {
      SwapBack(a, j);
      j := j - 1;
    }
  }

  /** Exchanges `a[j - 1]` and `a[j]`. */
  method SwapBack<T>(a: array<T>, j: int)
    requires 0 < j < a.Length
    modifies a
    ensures a[j - 1] == old(a[j]) && a[j] == old(a[j - 1])
    ensures forall k :: 0 <= k < a.Length && k != j - 1 && k != j ==> a[k] == old(a[k])
    ensures multiset(a[..]) == multiset(old(a[..]))
  {
    a[j - 1], a[j] := a[j], a[j - 1];
  }

  /** The order is unique when no two entries share a key: two orderings of the same
      entries are then equal, so the instability of the sort cannot show. */
  lemma {:induction false} SortedPermutationsEqual<T>(s: seq<T>, t: seq<T>, key: T -> int)
    requires SortedBy(s, key) && SortedBy(t, key) && multiset(s) == multiset(t)
    requires forall i, j :: 0 <= i < j < |s| ==> key(s[i]) != key(s[j])
    ensures s == t
    decreases |s|
  {
    assert |s| == |multiset(s)| == |multiset(t)| == |t|;
    if s != [] {
      assert s[0] in multiset(t) && t[0] in multiset(s);
      var j :| 0 <= j < |t| && t[j] == s[0];
      var i :| 0 <= i < |s| && s[i] == t[0];
      assert key(t[0]) <= key(s[0]) <= key(t[0]);
      assert i == 0;
      assert s[0] == t[0];
      TailsSameMultiset(s, t);
      SortedPermutationsEqual(s[1..], t[1..], key);
    }
  }

  lemma TailsSameMultiset<T>(s: seq<T>, t: seq<T>)
    requires s != [] && t != [] && s[0] == t[0] && multiset(s) == multiset(t)
    ensures multiset(s[1..]) == multiset(t[1..])
  {
    assert s == [s[0]] + s[1..] && t == [t[0]] + t[1..];
    assert multiset(s) == multiset{s[0]} + multiset(s[1..]);
    assert multiset(t) == multiset{t[0]} + multiset(t[1..]);
    assert multiset(s[1..]) == multiset(s) - multiset{s[0]};
  }
}
