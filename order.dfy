/** Go's ordering of strings (`<` on `string`, used by `sort.Strings`) and an in-place
    sort of a slice of strings. Go compares UTF-8 bytes; UTF-8 preserves the order of
    code points, so comparing characters gives the same order. */
module StringOrder {

  /** Lexicographic order: a proper prefix comes first. */
  predicate Less(a: string, b: string)
    decreases |a|
  {
    if |a| == 0 then |b| > 0
    else if |b| == 0 then false
    else if a[0] != b[0] then a[0] < b[0]
    else Less(a[1..], b[1..])
  }

  predicate LessEq(a: string, b: string) {
    a == b || Less(a, b)
  }

  lemma {:induction false} LessIrreflexive(a: string)
    ensures !Less(a, a)
  {
    if |a| > 0 {
      LessIrreflexive(a[1..]);
    }
  }

  lemma {:induction false} LessAsymmetric(a: string, b: string)
    requires Less(a, b)
    ensures !Less(b, a)
  {
    if |a| > 0 && |b| > 0 && a[0] == b[0] {
      LessAsymmetric(a[1..], b[1..]);
    }
  }

  lemma {:induction false} LessTransitive(a: string, b: string, c: string)
    requires Less(a, b) && Less(b, c)
    ensures Less(a, c)
  {
    if |a| > 0 && a[0] == b[0] && b[0] == c[0] {
      LessTransitive(a[1..], b[1..], c[1..]);
    }
  }

  /** Any two distinct strings are ordered one way or the other. */
  lemma {:induction false} LessTotal(a: string, b: string)
    requires a != b
    ensures Less(a, b) || Less(b, a)
  {
    if |a| > 0 && |b| > 0 && a[0] == b[0] {
      assert a == [a[0]] + a[1..] && b == [b[0]] + b[1..];
      LessTotal(a[1..], b[1..]);
    }
  }

  lemma LessEqTransitive(a: string, b: string, c: string)
    requires LessEq(a, b) && LessEq(b, c)
    ensures LessEq(a, c)
  {
    if Less(a, b) && Less(b, c) {
      LessTransitive(a, b, c);
    }
  }

  lemma LessEqAntisymmetric(a: string, b: string)
    requires LessEq(a, b) && LessEq(b, a)
    ensures a == b
  {
    if a != b {
      LessAsymmetric(a, b);
    }
  }

  /** Every neighbour pair is in order (what the sort establishes). */
  ghost predicate AdjacentSorted(s: seq<string>) {
    forall k :: 0 <= k < |s| - 1 ==> LessEq(s[k], s[k + 1])
  }

  /** Every pair is in order. */
  ghost predicate Sorted(s: seq<string>) {
    forall i, j :: 0 <= i < j < |s| ==> LessEq(s[i], s[j])
  }

  /** Every pair is strictly in order; such a sequence has no duplicates. */
  ghost predicate StrictlySorted(s: seq<string>) {
    forall i, j :: 0 <= i < j < |s| ==> Less(s[i], s[j])
  }

  ghost predicate NoDuplicates(s: seq<string>) {
    forall i, j :: 0 <= i < j < |s| ==> s[i] != s[j]
  }

  lemma {:induction false} AdjacentSortedIsSorted(s: seq<string>)
    requires AdjacentSorted(s)
    ensures Sorted(s)
  {
    if |s| > 1 {
      AdjacentSortedIsSorted(s[1..]);
      forall j | 1 <= j < |s|
        ensures LessEq(s[0], s[j])
      {
        assert LessEq(s[1..][0], s[1..][j - 1]);
        LessEqTransitive(s[0], s[1], s[j]);
      }
      forall i, j | 0 <= i < j < |s|
        ensures LessEq(s[i], s[j])
      {
        if i > 0 {
          assert LessEq(s[1..][i - 1], s[1..][j - 1]);
        }
      }
    }
  }

  /** A duplicate-free sequence has every element exactly once in its multiset. */
  lemma {:induction false} NoDuplicatesMultiset(s: seq<string>)
    requires NoDuplicates(s)
    ensures multiset(s) == multiset(set x | x in s)
  {
    if |s| > 0 {
      var t := s[1..];
      assert NoDuplicates(t) by {
        forall i, j | 0 <= i < j < |t| ensures t[i] != t[j] {
          assert t[i] == s[i + 1] && t[j] == s[j + 1];
        }
      }
      NoDuplicatesMultiset(t);
      assert s == [s[0]] + t;
      assert s[0] !in t by {
        forall j | 0 <= j < |t| ensures t[j] != s[0] {
          assert t[j] == s[j + 1];
        }
      }
      assert (set x | x in s) == {s[0]} + (set x | x in t);
    }
  }

  /** Sorting a duplicate-free sequence yields a strictly sorted one with the same elements. */
  lemma SortedPermutationIsStrict(sorted: seq<string>, original: seq<string>)
    requires AdjacentSorted(sorted) && NoDuplicates(original)
    requires multiset(sorted) == multiset(original)
    ensures StrictlySorted(sorted)
    ensures forall x :: x in sorted <==> x in original
  {
    NoDuplicatesMultiset(original);
    AdjacentSortedIsSorted(sorted);
    forall x ensures x in sorted <==> x in original {
      assert x in sorted <==> x in multiset(sorted);
    }
    forall i, j | 0 <= i < j < |sorted|
      ensures sorted[i] != sorted[j]
    {
      var x := sorted[i];
      assert sorted == sorted[..i] + [x] + sorted[i + 1..j] + [sorted[j]] + sorted[j + 1..];
      assert multiset(set y | y in original)[x] <= 1;
    }
  }

  /** Two strictly sorted sequences with the same elements are equal. */
  lemma {:induction false} StrictlySortedUnique(a: seq<string>, b: seq<string>)
    requires StrictlySorted(a) && StrictlySorted(b)
    requires forall x :: x in a <==> x in b
    ensures a == b
  {
    assert |a| > 0 ==> a[0] in b;
    assert |b| > 0 ==> b[0] in a;
    if |a| > 0 && |b| > 0 {
      assert LessEq(b[0], a[0]) && LessEq(a[0], b[0]);
      LessEqAntisymmetric(a[0], b[0]);
      forall x | x in a[1..] ensures x in b[1..] {
        LessIrreflexive(x);
        assert x in b && x != b[0];
      }
      forall x | x in b[1..] ensures x in a[1..] {
        LessIrreflexive(x);
        assert x in a && x != a[0];
      }
      StrictlySortedUnique(a[1..], b[1..]);
      assert a == [a[0]] + a[1..] && b == [b[0]] + b[1..];
    }
  }

  /** Every finite non-empty set of strings has a least element. */
  lemma {:induction false} LeastExists(s: set<string>)
    requires s != {}
    ensures exists x :: x in s && forall y :: y in s ==> LessEq(x, y)
    decreases |s|
  {
    var z :| z in s;
    if s == {z} {
      assert forall y :: y in s ==> LessEq(z, y);
    } else {
      var rest := s - {z};
      LeastExists(rest);
      var m :| m in rest && forall y :: y in rest ==> LessEq(m, y);
      var x := if Less(z, m) then z else m;
      forall y | y in s
        ensures LessEq(x, y)
      {
        if y == z {
          if x == m {
            LessTotal(z, m);
          }
        } else if x == z {
          assert y in rest;
          LessEqTransitive(z, m, y);
        } else {
          assert y in rest;
        }
      }
      assert x in s;
    }
  }

  /** The elements of a finite set in increasing order: the one order-independent listing. */
  ghost function SortedElements(s: set<string>): (r: seq<string>)
    ensures StrictlySorted(r)
    ensures forall x :: x in r <==> x in s
    ensures |r| == |s|
    decreases |s|
  {
    if s == {} then []
    else
      LeastExists(s);
      var x :| x in s && forall y :: y in s ==> LessEq(x, y);
      var rest := SortedElements(s - {x});
      PrependLeast(s, x, rest);
      [x] + rest
  }

  /** Putting the least element of a set before a strictly sorted listing of the others
      lists the whole set strictly sorted. */
  lemma PrependLeast(s: set<string>, x: string, rest: seq<string>)
    requires x in s && forall y :: y in s ==> LessEq(x, y)
    requires StrictlySorted(rest) && |rest| == |s - {x}|
    requires forall y :: y in rest <==> y in s - {x}
    ensures StrictlySorted([x] + rest)
    ensures forall y :: y in [x] + rest <==> y in s
    ensures |[x] + rest| == |s|
  {
    forall k | 0 <= k < |rest| ensures Less(x, rest[k]) {
      assert rest[k] in s - {x};
    }
  }

  /** A strictly sorted listing of a set is its `SortedElements`. */
  lemma SortedElementsUnique(s: set<string>, r: seq<string>)
    requires StrictlySorted(r)
    requires forall x :: x in r <==> x in s
    ensures r == SortedElements(s)
  {
    StrictlySortedUnique(r, SortedElements(s));
  }

  method Swap(a: array<string>, i: nat, j: nat)
    requires i < a.Length && j < a.Length
    modifies a
    ensures a[..] == old(a[..])[i := old(a[j])][j := old(a[i])]
    ensures multiset(a[..]) == old(multiset(a[..]))
  {
    a[i], a[j] := a[j], a[i];
  }

  /** Moves `a[i]` down into the sorted prefix `a[..i]`, leaving `a[..i + 1]` sorted. */
  method InsertDown(a: array<string>, i: nat)
    requires i < a.Length
    requires forall k :: 0 <= k < i - 1 ==> LessEq(a[k], a[k + 1])
    modifies a
    ensures forall k :: 0 <= k < i ==> LessEq(a[k], a[k + 1])
    ensures multiset(a[..]) == old(multiset(a[..]))
    ensures a[i + 1..] == old(a[i + 1..])
  {
    var j := i;
    while j > 0 && Less(a[j], a[j - 1])
      invariant 0 <= j <= i
      // the elements other than the one moving down stay in order
      invariant forall k :: 0 <= k < i && k != j - 1 && k != j ==> LessEq(a[k], a[k + 1])
      invariant 0 < j < i ==> LessEq(a[j - 1], a[j + 1])
      invariant j < i ==> Less(a[j], a[j + 1])
      invariant multiset(a[..]) == old(multiset(a[..]))
      invariant a[i + 1..] == old(a[i + 1..])
    {
      Swap(a, j - 1, j);
      j := j - 1;
    }
    if j > 0 && a[j] != a[j - 1] {
      LessTotal(a[j], a[j - 1]);
    }
  }

  /** Go's `sort.Strings`: sorts the slice in place (here by insertion). */
  method SortStrings(a: array<string>)
    modifies a
    ensures AdjacentSorted(a[..])
    ensures multiset(a[..]) == old(multiset(a[..]))
  {
    var i := 0;
    while i < a.Length
      invariant 0 <= i <= a.Length
      invariant forall k :: 0 <= k < i - 1 ==> LessEq(a[k], a[k + 1])
      invariant multiset(a[..]) == old(multiset(a[..]))
    {
      InsertDown(a, i);
      i := i + 1;
    }
  }
}
