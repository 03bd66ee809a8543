/** In-place sorting by a comparison, as sort.Slice promises it: a permutation of the slice in
    which no later element is less than an earlier one. Equal elements may come in any order. */
module Sorting {

  ghost predicate StrictWeakOrder<T(!new)>(less: (T, T) -> bool) {
    && (forall x, y :: less(x, y) ==> !less(y, x))
    && (forall x, y, z :: !less(y, x) && !less(z, y) ==> !less(z, x))
  }

  ghost predicate Sorted<T>(s: seq<T>, less: (T, T) -> bool) {
    forall i, j :: 0 <= i < j < |s| ==> !less(s[j], s[i])
  }

  method Swap<T>(a: array<T>, k: nat)
    requires 0 < k < a.Length
    modifies a
    ensures forall i :: 0 <= i < a.Length && i != k && i != k - 1 ==> a[i] == old(a[i])
    ensures a[k] == old(a[k - 1]) && a[k - 1] == old(a[k])
    ensures multiset(a[..]) == multiset(old(a[..]))
  {
    a[k], a[k - 1] := a[k - 1], a[k];
  }

  method SortSlice<T(!new)>(a: array<T>, less: (T, T) -> bool)
    requires StrictWeakOrder(less)
    modifies a
    ensures Sorted(a[..], less)
    ensures multiset(a[..]) == multiset(old(a[..]))
  {
    for n := 0 to a.Length
      invariant forall i, j :: 0 <= i < j < n ==> !less(a[j], a[i])
      invariant multiset(a[..]) == multiset(old(a[..]))
    {
      var k := n;
      while k > 0 && less(a[k], a[k - 1])
        invariant 0 <= k <= n
        invariant forall i, j :: 0 <= i < j <= n && j != k ==> !less(a[j], a[i])
        invariant multiset(a[..]) == multiset(old(a[..]))
      {
        Swap(a, k);
        k := k - 1;
      }
    }
  }
}
