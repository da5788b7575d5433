/**
 * Sorting and duplicate removal over sequences of joint indices: the
 * `std::sort`, `std::unique` and `erase` steps that put a move group into
 * its canonical ascending order.
 */
module SortedSeqs {
  import opened Seqs

  predicate Sorted(s: seq<nat>) {
    forall i, j :: 0 <= i < j < |s| ==> s[i] <= s[j]
  }

  predicate StrictlyAscending(s: seq<nat>) {
    forall i, j :: 0 <= i < j < |s| ==> s[i] < s[j]
  }

  /** Inserts `x` into a sorted sequence, keeping it sorted. */
  function InsertSorted(s: seq<nat>, x: nat): (r: seq<nat>)
    requires Sorted(s)
    ensures Sorted(r)
    ensures multiset(r) == multiset(s) + multiset{x}
    ensures forall y :: y in r ==> y == x || y in s
  {
    if s == [] || x <= s[0] then [x] + s
    else
      var rest := InsertSorted(s[1..], x);
      assert forall k :: 0 <= k < |rest| ==> s[0] <= rest[k] by {
        forall k | 0 <= k < |rest| ensures s[0] <= rest[k] {
          assert rest[k] in rest;
        }
      }
      assert s == [s[0]] + s[1..];
      [s[0]] + rest
  }

  /** `std::sort` on a sequence of indices: the result is sorted and a permutation of the input. */
  method SortAscending(s: seq<nat>) returns (r: seq<nat>)
    ensures Sorted(r)
    ensures multiset(r) == multiset(s)
    ensures Elements(r) == Elements(s)
  {
    r := [];
    for i := 0 to |s|
      invariant Sorted(r)
      invariant multiset(r) == multiset(s[..i])
    {
      r := InsertSorted(r, s[i]);
      assert s[..i + 1] == s[..i] + [s[i]];
    }
    assert s[..|s|] == s;
    assert forall x :: x in r <==> x in multiset(r);
  }

  /**
   * `std::unique` followed by `erase` on a sorted sequence: every run of
   * equal values shrinks to one, so the result is strictly ascending and
   * holds exactly the values of the input.
   */
  method Unique(s: seq<nat>) returns (r: seq<nat>)
    requires Sorted(s)
    ensures StrictlyAscending(r)
    ensures Elements(r) == Elements(s)
    ensures |r| <= |s|
  {
    r := [];
    for i := 0 to |s|
      invariant StrictlyAscending(r)
      invariant Elements(r) == Elements(s[..i])
      invariant |r| <= i
      invariant i > 0 <==> r != []
      invariant r != [] ==> r[|r| - 1] == s[i - 1]
    {
      assert s[..i + 1] == s[..i] + [s[i]];
      assert Elements(s[..i + 1]) == Elements(s[..i]) + {s[i]};
      if r == [] || r[|r| - 1] != s[i] {
        r := r + [s[i]];
      }
    }
    assert s[..|s|] == s;
  }

  /** The smallest value of a strictly ascending sequence comes first, and only once. */
  lemma AscendingHead(s: seq<nat>, x: nat)
    requires StrictlyAscending(s) && s != []
    requires x in Elements(s)
    ensures s[0] <= x
    ensures x in Elements(s[1..]) <==> x != s[0]
  {
    var k :| 0 <= k < |s| && s[k] == x;
    if k > 0 {
      assert s[1..][k - 1] == x;
    }
  }

  /**
   * A strictly ascending sequence is determined by its values: two of them
   * holding the same values are equal.
   */
  lemma {:induction false} AscendingDeterminedByElements(a: seq<nat>, b: seq<nat>)
    requires StrictlyAscending(a) && StrictlyAscending(b)
    requires Elements(a) == Elements(b)
    ensures a == b
  {
    ElementsEmpty(a);
    ElementsEmpty(b);
    if a != [] && b != [] {
      assert a[0] in Elements(a) && b[0] in Elements(b);
      AscendingHead(a, b[0]);
      AscendingHead(b, a[0]);
      assert a[0] == b[0];
      forall x | x in Elements(a[1..])
        ensures x in Elements(b[1..])
      {
        assert x in Elements(a);
        AscendingHead(a, x);
        AscendingHead(b, x);
      }
      forall x | x in Elements(b[1..])
        ensures x in Elements(a[1..])
      {
        assert x in Elements(b);
        AscendingHead(a, x);
        AscendingHead(b, x);
      }
      AscendingDeterminedByElements(a[1..], b[1..]);
      assert a == [a[0]] + a[1..] && b == [b[0]] + b[1..];
    }
  }
}
