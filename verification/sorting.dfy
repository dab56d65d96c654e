/** The listing's order: byte-wise comparison of paths, and the stable sort by path. */
module Sorting {
  import opened Sequences

  datatype PathDelegation = PathDelegation(path: string, pubkey: string)

  predicate LexLe(a: string, b: string) {
    a == "" || (b != "" && (a[0] < b[0] || (a[0] == b[0] && LexLe(a[1..], b[1..]))))
  }

  /** Byte-wise order: a prefix comes first, otherwise the first difference decides. */
  predicate PathLe(a: string, b: string) {
    a <= b || exists i :: 0 <= i < |a| && i < |b| && DifferAt(a, b, i) && a[i] < b[i]
  }

  predicate DifferAt(a: string, b: string, i: nat)
    requires i < |a| && i < |b|
  {
    a[..i] == b[..i] && a[i] != b[i]
  }

  /** A difference found past an equal first character, and back. */
  lemma DifferShift(a: string, b: string, i: nat)
    requires a != "" && b != "" && a[0] == b[0] && i + 1 < |a| && i + 1 < |b|
    ensures DifferAt(a[1..], b[1..], i) <==> DifferAt(a, b, i + 1)
  {
    var c, d := a[1..], b[1..];
    assert a[..i + 1] == [a[0]] + c[..i] && b[..i + 1] == [a[0]] + d[..i];
    assert c[..i] == a[..i + 1][1..] && d[..i] == b[..i + 1][1..];
  }

  lemma PathLeShift(a: string, b: string)
    requires a != "" && b != "" && a[0] == b[0]
    ensures PathLe(a, b) <==> PathLe(a[1..], b[1..])
  {
    var c, d := a[1..], b[1..];
    assert a == [a[0]] + c && b == [a[0]] + d;
    assert a <= b <==> c <= d;
    if i :| 0 <= i < |c| && i < |d| && DifferAt(c, d, i) && c[i] < d[i] {
      DifferShift(a, b, i);
      assert DifferAt(a, b, i + 1);
    }
    if i :| 0 <= i < |a| && i < |b| && DifferAt(a, b, i) && a[i] < b[i] {
      DifferShift(a, b, i - 1);
      assert DifferAt(c, d, i - 1);
    }
  }

  lemma {:induction false} LexMeaning(a: string, b: string)
    ensures LexLe(a, b) <==> PathLe(a, b)
  {
    if a != "" && b != "" {
      if a[0] == b[0] {
        LexMeaning(a[1..], b[1..]);
        PathLeShift(a, b);
      } else {
        assert DifferAt(a, b, 0);
      }
    }
  }

  /** The listing is in byte-wise order of paths. */
  predicate PathOrdered(s: seq<PathDelegation>) {
    forall i, j :: 0 <= i < j < |s| ==> PathLe(s[i].path, s[j].path)
  }

  lemma SortedMeaning(s: seq<PathDelegation>)
    ensures Sorted(s) <==> PathOrdered(s)
  {
    hide LexLe, PathLe;
    forall i, j | 0 <= i < j < |s| ensures LexLe(s[i].path, s[j].path) <==> PathLe(s[i].path, s[j].path) {
      LexMeaning(s[i].path, s[j].path);
    }
  }

  lemma {:induction false} LexTotal(a: string, b: string)
    ensures LexLe(a, b) || LexLe(b, a)
  {
    if a != "" && b != "" && a[0] == b[0] {
      LexTotal(a[1..], b[1..]);
    }
  }

  lemma {:induction false} LexAntisymmetric(a: string, b: string)
    requires LexLe(a, b) && LexLe(b, a)
    ensures a == b
  {
    if a != "" {
      LexAntisymmetric(a[1..], b[1..]);
      assert a == [a[0]] + a[1..] && b == [b[0]] + b[1..];
    }
  }

  lemma {:induction false} LexTransitive(a: string, b: string, c: string)
    requires LexLe(a, b) && LexLe(b, c)
    ensures LexLe(a, c)
  {
    if a != "" && a[0] == b[0] == c[0] {
      LexTransitive(a[1..], b[1..], c[1..]);
    }
  }

  predicate Sorted(s: seq<PathDelegation>) {
    forall i, j :: 0 <= i < j < |s| ==> LexLe(s[i].path, s[j].path)
  }

  /** The path determines the element. */
  predicate Functional(s: seq<PathDelegation>) {
    forall i, j :: 0 <= i < |s| && 0 <= j < |s| && s[i].path == s[j].path ==> s[i] == s[j]
  }

  function Insert(s: seq<PathDelegation>, d: PathDelegation): seq<PathDelegation> {
    if s == [] || LexLe(Last(s).path, d.path) then s + [d]
    else Insert(Init(s), d) + [Last(s)]
  }

  function SortByPath(s: seq<PathDelegation>): seq<PathDelegation> {
    if s == [] then [] else Insert(SortByPath(Init(s)), Last(s))
  }

  predicate AtMost(s: seq<PathDelegation>, path: string) {
    forall d :: d in s ==> LexLe(d.path, path)
  }

  lemma SortedSnoc(s: seq<PathDelegation>, d: PathDelegation)
    requires Sorted(s) && AtMost(s, d.path)
    ensures Sorted(s + [d])
  {
  }

  lemma SortedParts(s: seq<PathDelegation>)
    requires Sorted(s) && s != []
    ensures Sorted(Init(s)) && AtMost(s, Last(s).path)
  {
    LexReflexive(Last(s).path);
    forall d | d in s ensures LexLe(d.path, Last(s).path) {
      var i :| 0 <= i < |s| && s[i] == d;
    }
  }

  lemma {:induction false} InsertElements(s: seq<PathDelegation>, d: PathDelegation)
    ensures multiset(Insert(s, d)) == multiset(s) + multiset{d}
    ensures forall x :: x in Insert(s, d) ==> x in s || x == d
  {
    if s != [] && !LexLe(Last(s).path, d.path) {
      InsertElements(Init(s), d);
      assert s == Init(s) + [Last(s)];
    }
  }

  lemma {:induction false} InsertSorts(s: seq<PathDelegation>, d: PathDelegation)
    requires Sorted(s)
    ensures Sorted(Insert(s, d))
  {
    if s == [] {
    } else if LexLe(Last(s).path, d.path) {
      SortedParts(s);
      forall x | x in s ensures LexLe(x.path, d.path) {
        LexTransitive(x.path, Last(s).path, d.path);
      }
      SortedSnoc(s, d);
    } else {
      SortedParts(s);
      InsertSorts(Init(s), d);
      LexTotal(Last(s).path, d.path);
      InsertElements(Init(s), d);
      SortedSnoc(Insert(Init(s), d), Last(s));
    }
  }

  /** Sorting yields a permutation in byte-wise order of paths. */
  lemma ListingOrder(s: seq<PathDelegation>)
    ensures PathOrdered(SortByPath(s)) && multiset(SortByPath(s)) == multiset(s)
  {
    SortSorts(s);
    SortedMeaning(SortByPath(s));
  }

  lemma {:induction false} SortSorts(s: seq<PathDelegation>)
    ensures Sorted(SortByPath(s))
    ensures multiset(SortByPath(s)) == multiset(s)
  {
    if s != [] {
      SortSorts(Init(s));
      InsertSorts(SortByPath(Init(s)), Last(s));
      InsertElements(SortByPath(Init(s)), Last(s));
      assert s == Init(s) + [Last(s)];
    }
  }

  /** Sorted sequences with the same elements end in the same one, once the path determines the element. */
  lemma SameLast(a: seq<PathDelegation>, b: seq<PathDelegation>)
    requires Sorted(a) && Sorted(b) && Functional(a) && a != [] && b != []
    requires forall d :: d in a <==> d in b
    ensures Last(a) == Last(b)
  {
    SortedParts(a);
    SortedParts(b);
    assert Last(a) in b && Last(b) in a;
    LexAntisymmetric(Last(a).path, Last(b).path);
    var i :| 0 <= i < |a| && a[i] == Last(b);
  }

  lemma MultisetParts(s: seq<PathDelegation>)
    requires s != []
    ensures multiset(Init(s)) == multiset(s) - multiset{Last(s)}
  {
    assert s == Init(s) + [Last(s)];
  }

  /** Two sorted sequences with the same elements are equal once the path determines the element. */
  lemma {:induction false} SortedUnique(a: seq<PathDelegation>, b: seq<PathDelegation>)
    requires Sorted(a) && Sorted(b) && Functional(a) && multiset(a) == multiset(b)
    ensures a == b
  {
    SameLength(a, b);
    if a != [] {
      SameMembers(a, b);
      SameLast(a, b);
      MultisetParts(a);
      MultisetParts(b);
      SortedInit(a);
      SortedInit(b);
      SortedUnique(Init(a), Init(b));
      SnocEqual(a, b);
    }
  }

  lemma SameLength(a: seq<PathDelegation>, b: seq<PathDelegation>)
    requires multiset(a) == multiset(b)
    ensures |a| == |b|
  {
    assert |a| == |multiset(a)| == |multiset(b)| == |b|;
  }

  lemma SortedInit(s: seq<PathDelegation>)
    requires Sorted(s) && s != []
    ensures Sorted(Init(s)) && (Functional(s) ==> Functional(Init(s)))
  {
  }

  lemma SnocEqual(a: seq<PathDelegation>, b: seq<PathDelegation>)
    requires a != [] && b != [] && Init(a) == Init(b) && Last(a) == Last(b)
    ensures a == b
  {
  }

  lemma LexReflexive(a: string)
    ensures LexLe(a, a)
  {
  }

  /** The entries of a listing for paths other than `path`, in order. */
  function Without(s: seq<PathDelegation>, path: string): seq<PathDelegation> {
    if s == [] then []
    else if Last(s).path == path then Without(Init(s), path)
    else Without(Init(s), path) + [Last(s)]
  }

  lemma {:induction false} WithoutMembers(s: seq<PathDelegation>, path: string)
    ensures forall d :: d in Without(s, path) <==> d in s && d.path != path
  {
    if s != [] {
      WithoutMembers(Init(s), path);
      assert s == Init(s) + [Last(s)];
    }
  }

  lemma {:induction false} WithoutCounts(s: seq<PathDelegation>, path: string)
    ensures forall d :: multiset(Without(s, path))[d] == if d.path == path then 0 else multiset(s)[d]
  {
    if s != [] {
      WithoutCounts(Init(s), path);
      assert s == Init(s) + [Last(s)];
    }
  }

  lemma {:induction false} WithoutSorted(s: seq<PathDelegation>, path: string)
    requires Sorted(s)
    ensures Sorted(Without(s, path))
  {
    if s != [] {
      SortedParts(s);
      WithoutSorted(Init(s), path);
      WithoutMembers(Init(s), path);
      SortedSnoc(Without(Init(s), path), Last(s));
    }
  }

  lemma FunctionalByMembership(a: seq<PathDelegation>, b: seq<PathDelegation>)
    requires Functional(b) && forall d :: d in a ==> d in b
    ensures Functional(a)
  {
    forall i, j | 0 <= i < |a| && 0 <= j < |a| && a[i].path == a[j].path ensures a[i] == a[j] {
      assert a[i] in b && a[j] in b;
    }
  }

  lemma SameMembers(a: seq<PathDelegation>, b: seq<PathDelegation>)
    requires multiset(a) == multiset(b)
    ensures forall d :: d in a <==> d in b
  {
    forall d ensures d in a <==> d in b {
      assert d in a <==> d in multiset(a);
      assert d in b <==> d in multiset(b);
    }
  }

  /** Dropping a path commutes with sorting. */
  lemma SortWithout(s: seq<PathDelegation>, path: string)
    requires Functional(s)
    ensures SortByPath(Without(s, path)) == Without(SortByPath(s), path)
  {
    var a, b := SortByPath(Without(s, path)), Without(SortByPath(s), path);
    SortSorts(s);
    SortSorts(Without(s, path));
    WithoutSorted(SortByPath(s), path);
    SameWithout(s, SortByPath(s), path);
    WithoutMembers(s, path);
    SameMembers(a, Without(s, path));
    FunctionalByMembership(a, s);
    SortedUnique(a, b);
  }

  lemma SameWithout(s: seq<PathDelegation>, t: seq<PathDelegation>, path: string)
    requires multiset(s) == multiset(t)
    ensures multiset(Without(s, path)) == multiset(Without(t, path))
  {
    WithoutCounts(s, path);
    WithoutCounts(t, path);
  }

  /** Sorting ignores the order in which a functional list was collected. */
  lemma SortIgnoresOrder(s: seq<PathDelegation>, t: seq<PathDelegation>)
    requires Functional(s) && multiset(s) == multiset(t)
    ensures SortByPath(s) == SortByPath(t)
  {
    SortSorts(s);
    SortSorts(t);
    SameMembers(SortByPath(s), s);
    FunctionalByMembership(SortByPath(s), s);
    SortedUnique(SortByPath(s), SortByPath(t));
  }
}
