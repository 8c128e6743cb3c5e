/**
 * The order in which JavaScript's default `Array.prototype.sort` puts strings:
 * lexicographic comparison, character by character, where a proper prefix
 * comes first. The comparator is stated as a predicate, proved to be a strict
 * total order, and the in-place sort is proved against a functional insertion
 * sort that serves as its reference definition.
 */
module StringOrder {

  /**
   * Strict lexicographic order on strings: a proper prefix comes first, and
   * where the first characters differ they decide.
   */
  predicate Less(a: string, b: string)
    ensures |a| < |b| && a == b[..|a|] ==> Less(a, b)
    ensures a != [] && b != [] && a[0] != b[0] ==> (Less(a, b) <==> a[0] < b[0])
    decreases |a|
  {
    if a == [] then b != []
    else
      assert |a| < |b| && a == b[..|a|] ==> a[1..] == b[1..][..|a| - 1];
      b != [] && (a[0] < b[0] || (a[0] == b[0] && Less(a[1..], b[1..])))
  }

  /** `a` and `b` agree before position `k`, where `a` has the smaller character. */
  predicate SmallerAt(a: string, b: string, k: nat)
  {
    k < |a| && k < |b| && a[..k] == b[..k] && a[k] < b[k]
  }

  /**
   * The comparison of strings by the abstract operation IsLessThan of
   * ECMA-262, which the default sort comparison uses: `a` sorts first when
   * it is a proper prefix of `b`, or when at the first position where they
   * differ its character is the smaller.
   */
  lemma {:induction false} LessIsFirstDifference(a: string, b: string)
    ensures Less(a, b) <==> (|a| < |b| && a == b[..|a|]) || exists k :: SmallerAt(a, b, k)
    decreases |a|
  {
    if a != [] && b != [] {
      LessIsFirstDifference(a[1..], b[1..]);
      if a[0] < b[0] {
        assert SmallerAt(a, b, 0);
      } else if a[0] == b[0] {
        FirstDifferenceAfterSameHead(a, b);
      } else {
        forall k: nat
          ensures !SmallerAt(a, b, k)
        {
          if 0 < k < |a| && k < |b| {
            assert a[..k][0] == a[0] && b[..k][0] == b[0];
          }
        }
      }
    }
  }

  /** Behind a common first character, prefix and first difference are those of the tails, one position on. */
  lemma FirstDifferenceAfterSameHead(a: string, b: string)
    requires a != [] && b != [] && a[0] == b[0]
    ensures (|a| < |b| && a == b[..|a|]) <==> (|a| - 1 < |b| - 1 && a[1..] == b[1..][..|a| - 1])
    ensures (exists k :: SmallerAt(a, b, k)) <==> (exists k :: SmallerAt(a[1..], b[1..], k))
  {
    var a', b' := a[1..], b[1..];
    forall k: nat | SmallerAt(a', b', k)
      ensures SmallerAt(a, b, k + 1)
    {
      assert a[..k + 1] == [a[0]] + a'[..k] && b[..k + 1] == [b[0]] + b'[..k];
    }
    forall k: nat | SmallerAt(a, b, k)
      ensures k > 0 && SmallerAt(a', b', k - 1)
    {
      assert k > 0;
      assert a'[..k - 1] == a[..k][1..] && b'[..k - 1] == b[..k][1..];
    }
    assert a == [a[0]] + a';
    if |a| < |b| {
      assert b[..|a|] == [b[0]] + b'[..|a'|];
    }
  }

  lemma {:induction false} LessIrreflexive(a: string)
    ensures !Less(a, a)
    decreases |a|
  {
    if a != [] {
      LessIrreflexive(a[1..]);
    }
  }

  lemma {:induction false} LessAsymmetric(a: string, b: string)
    ensures Less(a, b) ==> !Less(b, a)
    decreases |a|
  {
    if a != [] && b != [] && a[0] == b[0] {
      LessAsymmetric(a[1..], b[1..]);
    }
  }

  lemma {:induction false} LessTransitive(a: string, b: string, c: string)
    requires Less(a, b) && Less(b, c)
    ensures Less(a, c)
    decreases |a|
  {
    if a != [] && a[0] == b[0] && b[0] == c[0] {
      LessTransitive(a[1..], b[1..], c[1..]);
    }
  }

  /** Any two different strings are ordered one way or the other. */
  lemma {:induction false} LessTotal(a: string, b: string)
    ensures a == b || Less(a, b) || Less(b, a)
    decreases |a|
  {
    if a != [] && b != [] && a[0] == b[0] {
      LessTotal(a[1..], b[1..]);
      if a[1..] == b[1..] {
        assert a == [a[0]] + a[1..] && b == [b[0]] + b[1..];
      }
    }
  }

  /** "Not less than" chains: the order sort() leaves is transitive. */
  lemma NotLessTransitive(x: string, y: string, z: string)
    requires !Less(y, x) && !Less(z, y)
    ensures !Less(z, x)
  {
    if Less(z, x) {
      LessTotal(x, y);
      if Less(x, y) {
        LessTransitive(z, x, y);
      }
    }
  }

  predicate Distinct(s: seq<string>)
  {
    forall i, j :: 0 <= i < j < |s| ==> s[i] != s[j]
  }

  /** No string is less than the one before it: the order sort() leaves an array in. */
  predicate Ascending(s: seq<string>)
  {
    forall k :: 0 < k < |s| ==> !Less(s[k], s[k - 1])
  }

  /** Every string is less than every later one, so each appears once. */
  predicate StrictlyAscending(s: seq<string>)
  {
    forall i, j :: 0 <= i < j < |s| ==> Less(s[i], s[j])
  }

  lemma {:induction false} AscendingPairwise(s: seq<string>, i: nat, j: nat)
    requires Ascending(s) && i <= j < |s|
    ensures !Less(s[j], s[i])
    decreases j - i
  {
    if i == j {
      LessIrreflexive(s[i]);
    } else {
      AscendingPairwise(s, i, j - 1);
      NotLessTransitive(s[i], s[j - 1], s[j]);
    }
  }

  /** An ascending sequence without repeats is strictly ascending. */
  lemma AscendingDistinctIsStrict(s: seq<string>)
    requires Ascending(s) && Distinct(s)
    ensures StrictlyAscending(s)
  {
    forall i, j | 0 <= i < j < |s|
      ensures Less(s[i], s[j])
    {
      AscendingPairwise(s, i, j);
      LessTotal(s[i], s[j]);
    }
  }

  /** Inserts `x` into an ascending sequence just before the first element not less than it. */
  function Insert(x: string, s: seq<string>): (r: seq<string>)
    requires Ascending(s)
    ensures Ascending(r)
    ensures multiset(r) == multiset(s) + multiset{x}
    ensures r[0] == x || (s != [] && r[0] == s[0])
  {
    if s == [] then [x]
    else if Less(s[0], x) then
      LessAsymmetric(s[0], x);
      AscendingTail(s);
      var rest := Insert(x, s[1..]);
      assert s == [s[0]] + s[1..];
      assert !Less(rest[0], s[0]);
      [s[0]] + rest
    else [x] + s
  }

  /** Reference definition of sorting: insertion sort over the sequence. */
  function SortStrings(s: seq<string>): (r: seq<string>)
    ensures Ascending(r)
    ensures multiset(r) == multiset(s)
  {
    if s == [] then []
    else
      assert s == s[..|s| - 1] + [s[|s| - 1]];
      Insert(s[|s| - 1], SortStrings(s[..|s| - 1]))
  }

  lemma AscendingTail(s: seq<string>)
    requires Ascending(s) && s != []
    ensures Ascending(s[1..])
  {
    forall k | 0 < k < |s| - 1
      ensures !Less(s[1..][k], s[1..][k - 1])
    {
      assert s[1..][k] == s[k + 1] && s[1..][k - 1] == s[k];
    }
  }

  /** Sorting is determined by contents alone: two ascending arrangements of one multiset coincide. */
  lemma {:induction false} AscendingUnique(s: seq<string>, t: seq<string>)
    requires Ascending(s) && Ascending(t) && multiset(s) == multiset(t)
    ensures s == t
    decreases |s|
  {
    assert |s| == |multiset(s)| == |multiset(t)| == |t|;
    if s != [] {
      AscendingSameHead(s, t);
      TailMultiset(s);
      TailMultiset(t);
      AscendingTail(s);
      AscendingTail(t);
      AscendingUnique(s[1..], t[1..]);
      assert s == [s[0]] + s[1..] && t == [t[0]] + t[1..];
    }
  }

  /** Two ascending arrangements of one non-empty multiset start with the same string. */
  lemma AscendingSameHead(s: seq<string>, t: seq<string>)
    requires Ascending(s) && Ascending(t) && multiset(s) == multiset(t) && s != [] && t != []
    ensures s[0] == t[0]
  {
    assert s[0] in multiset(t);
    var k :| 0 <= k < |t| && t[k] == s[0];
    AscendingPairwise(t, 0, k);
    assert t[0] in multiset(s);
    var m :| 0 <= m < |s| && s[m] == t[0];
    AscendingPairwise(s, 0, m);
    LessTotal(s[0], t[0]);
  }

  lemma TailMultiset(s: seq<string>)
    requires s != []
    ensures multiset(s[1..]) == multiset(s) - multiset{s[0]}
  {
    assert s == [s[0]] + s[1..];
  }

  /** Exchanges two neighbouring elements; the contents as a multiset stay the same. */
  method SwapDown(a: array<string>, j: nat)
    requires 0 < j < a.Length
    modifies a
    ensures a[j - 1] == old(a[j]) && a[j] == old(a[j - 1])
    ensures forall k :: 0 <= k < a.Length && k != j - 1 && k != j ==> a[k] == old(a[k])
    ensures multiset(a[..]) == multiset(old(a[..]))
  {
    a[j - 1], a[j] := a[j], a[j - 1];
  }

  /** Moves `a[i]` down into the ascending prefix `a[..i]`, leaving `a[..i + 1]` ascending. */
  method SinkInto(a: array<string>, i: nat)
    requires i < a.Length && Ascending(a[..i])
    modifies a
    ensures Ascending(a[..i + 1])
    ensures a[i + 1..] == old(a[i + 1..])
    ensures multiset(a[..]) == multiset(old(a[..]))
  {
    var j := i;
    while j > 0 && Less(a[j], a[j - 1])
      invariant 0 <= j <= i
      invariant forall k :: 0 < k <= i && k != j ==> !Less(a[k], a[k - 1])
      invariant 0 < j < i ==> !Less(a[j + 1], a[j - 1])
      invariant a[i + 1..] == old(a[i + 1..])
      invariant multiset(a[..]) == multiset(old(a[..]))
      decreases j
    {
      LessAsymmetric(a[j], a[j - 1]);
      SwapDown(a, j);
      j := j - 1;
    }
  }

  /**
   * `Array.prototype.sort()` with no comparator, as an in-place insertion sort.
   */
  method SortInPlace(a: array<string>)
    modifies a
    ensures a[..] == SortStrings(old(a[..]))
  {
    var i := 0;
    while i < a.Length
      invariant 0 <= i <= a.Length
      invariant Ascending(a[..i])
      invariant multiset(a[..]) == multiset(old(a[..]))
    {
      SinkInto(a, i);
      i := i + 1;
    }
    assert a[..a.Length] == a[..];
    AscendingUnique(a[..], SortStrings(old(a[..])));
  }
}
