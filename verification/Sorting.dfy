/** sort.Slice and sort.Strings: a permutation in which nothing precedes what comes before it. */
module Sorting {
  import opened Text

  /** A strict weak order: what a Go less-function must be. */
  ghost predicate StrictWeak(less: (string, string) -> bool) {
    && (forall x, y :: less(x, y) ==> !less(y, x))
    && (forall x, y, z :: !less(x, y) && !less(y, z) ==> !less(x, z))
  }

  predicate SortedBy(s: seq<string>, less: (string, string) -> bool) {
    forall i, j :: 0 <= i < j < |s| ==> !less(s[j], s[i])
  }

  /** Insertion keeps the order and adds exactly x. */
  method Insert(s: seq<string>, x: string, less: (string, string) -> bool) returns (out: seq<string>)
    requires StrictWeak(less) && SortedBy(s, less)
    ensures SortedBy(out, less) && multiset(out) == multiset(s) + multiset{x}
  {
    var i := |s|;
    while i > 0 && less(x, s[i - 1])
      invariant 0 <= i <= |s|
      invariant forall j :: i <= j < |s| ==> less(x, s[j])
    {
      i := i - 1;
    }
    out := s[..i] + [x] + s[i..];
    InsertedIsSorted(s, x, i, less);
    assert s == s[..i] + s[i..];
  }

  lemma {:induction false} InsertedIsSorted(s: seq<string>, x: string, i: nat, less: (string, string) -> bool)
    requires StrictWeak(less) && SortedBy(s, less) && i <= |s|
    requires i > 0 ==> !less(x, s[i - 1])
    requires forall j :: i <= j < |s| ==> less(x, s[j])
    ensures SortedBy(s[..i] + [x] + s[i..], less)
  {
    var out := s[..i] + [x] + s[i..];
    forall a, b | 0 <= a < b < |out|
      ensures !less(out[b], out[a])
    {
      if b == i && a < i - 1 {
        assert !less(s[i - 1], s[a]);
      }
    }
  }

  method Sort(s: seq<string>, less: (string, string) -> bool) returns (out: seq<string>)
    requires StrictWeak(less)
    ensures SortedBy(out, less) && multiset(out) == multiset(s)
  {
    out := [];
    for i := 0 to |s|
      invariant SortedBy(out, less) && multiset(out) == multiset(s[..i])
    {
      assert s[..i + 1] == s[..i] + [s[i]];
      out := Insert(out, s[i], less);
    }
    assert s[..|s|] == s;
  }

  lemma {:induction false} LessIsStrictWeak()
    ensures StrictWeak(Less)
  {
    forall x, y | Less(x, y)
      ensures !Less(y, x)
    {
      Trichotomy(x, y);
    }
    forall x, y, z | !Less(x, y) && !Less(y, z)
      ensures !Less(x, z)
    {
      Trichotomy(x, y);
      Trichotomy(y, z);
      Trichotomy(x, z);
      if Less(x, z) && x != y && y != z {
        LessTransitive(z, y, x);
      }
    }
  }
}
