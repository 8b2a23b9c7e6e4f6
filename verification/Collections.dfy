/** Facts about sets and multisets that several modules use. */
module Collections {

  lemma SubsetCount<T>(a: set<T>, b: set<T>)
    requires a <= b
    ensures |a| <= |b|
    ensures |a| == |b| ==> a == b
  {
    assert b == a + (b - a);
  }

  /** Removing the last element of one permutation from the other. */
  lemma RemoveOne<T>(a: seq<T>, b: seq<T>, j: nat)
    requires multiset(a) == multiset(b) && a != [] && j < |b| && b[j] == a[|a| - 1]
    ensures multiset(b[..j] + b[j + 1..]) == multiset(a[..|a| - 1])
  {
    var m := b[j];
    assert a == a[..|a| - 1] + [m];
    assert b == b[..j] + [m] + b[j + 1..];
    assert multiset(a) == multiset(a[..|a| - 1]) + multiset{m};
    assert multiset(b) == multiset(b[..j]) + multiset{m} + multiset(b[j + 1..]);
    assert multiset(a[..|a| - 1]) == multiset(a) - multiset{m};
    assert multiset(b[..j] + b[j + 1..]) == multiset(b) - multiset{m};
  }
}
