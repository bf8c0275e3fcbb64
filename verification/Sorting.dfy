/** Stand-in for std::sort with a greater-than key: some descending permutation; nothing is said about ties. */
module Sorting {

  ghost predicate Descending<T(!new)>(s: seq<T>, key: T -> real) {
    forall i, j | 0 <= i < j < |s| :: key(s[i]) >= key(s[j])
  }

  method SortDescending<T(!new, ==)>(s: seq<T>, key: T -> real) returns (sorted: seq<T>)
    ensures multiset(sorted) == multiset(s) && |sorted| == |s| && Descending(sorted, key)
  {
    sorted := [];
    for n := 0 to |s|
      invariant multiset(sorted) == multiset(s[..n]) && |sorted| == n && Descending(sorted, key)
    {
      assert s[..n + 1] == s[..n] + [s[n]];
      sorted := Insert(sorted, s[n], key);
    }
    assert s[..|s|] == s;
  }

  method Insert<T(!new, ==)>(s: seq<T>, x: T, key: T -> real) returns (r: seq<T>)
    requires Descending(s, key)
    ensures multiset(r) == multiset(s) + multiset{x} && |r| == |s| + 1 && Descending(r, key)
  {
    hide Descending;
    var i := 0;
    while i < |s| && key(s[i]) >= key(x)
      invariant 0 <= i <= |s| && forall j | 0 <= j < i :: key(s[j]) >= key(x)
    {
      i := i + 1;
    }
    DescendingInsert(s, i, x, key);
    assert s == s[..i] + s[i..];
    r := s[..i] + [x] + s[i..];
  }

  lemma DescendingInsert<T(!new)>(s: seq<T>, i: nat, x: T, key: T -> real)
    requires Descending(s, key) && i <= |s| && (forall j | 0 <= j < i :: key(s[j]) >= key(x))
    requires i < |s| ==> key(x) >= key(s[i])
    ensures Descending(s[..i] + [x] + s[i..], key)
  {
    var r := s[..i] + [x] + s[i..];
    forall a, b | 0 <= a < b < |r| ensures key(r[a]) >= key(r[b]) {
      if b < i {
        assert r[a] == s[a] && r[b] == s[b];
      } else if b == i {
        assert r[a] == s[a] && r[b] == x;
      } else {
        assert r[b] == s[b - 1] && key(s[i]) >= key(s[b - 1]);
        if a < i {
          assert r[a] == s[a];
        } else if a > i {
          assert r[a] == s[a - 1];
        }
      }
    }
  }
}
