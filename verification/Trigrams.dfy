/** Byte trigrams of a query and their Jaccard similarity. */
module Trigrams {

  type Byte = x: int | 0 <= x < 256

  /** Three bytes packed into 24 bits; the shifted bytes do not overlap, so `|` is addition. */
  function Pack(a: Byte, b: Byte, c: Byte): nat {
    a * 0x10000 + b * 0x100 + c
  }

  /** Packing loses nothing: different trigrams have different codes. */
  lemma PackInjective(a: Byte, b: Byte, c: Byte, a': Byte, b': Byte, c': Byte)
    ensures Pack(a, b, c) == Pack(a', b', c') <==> a == a' && b == b' && c == c'
    ensures Pack(a, b, c) < 0x1000000
  {
  }

  function TrigramAt(s: seq<Byte>, i: nat): nat
    requires i + 2 < |s|
  {
    Pack(s[i], s[i + 1], s[i + 2])
  }

  /** The codes of all trigrams that occur in the string. */
  function TrigramSet(s: seq<Byte>): set<int> {
    set i | 0 <= i < |s| - 2 :: TrigramAt(s, i)
  }

  function Elements(s: seq<int>): (r: set<int>)
    ensures forall x :: x in r <==> x in s
  {
    set x | x in s
  }

  predicate Sorted(s: seq<int>) {
    forall i, j :: 0 <= i < j < |s| ==> s[i] <= s[j]
  }

  predicate Increasing(s: seq<int>) {
    forall i, j :: 0 <= i < j < |s| ==> s[i] < s[j]
  }

  function Insert(s: seq<int>, x: int): (r: seq<int>)
    requires Sorted(s)
    ensures Sorted(r) && multiset(r) == multiset(s) + multiset{x}
    ensures forall y :: y in r ==> y in s || y == x
  {
    if s == [] || s[|s| - 1] <= x then s + [x]
    else
      var k := |s| - 1;
      assert s == s[..k] + [s[k]];
      var front := Insert(s[..k], x);
      SortedAbove(front, s[k]);
      SameAndLast(s[..k], front, s[k], x);
      front + [s[k]]
  }

  lemma SameAndLast(s: seq<int>, front: seq<int>, last: int, x: int)
    requires multiset(front) == multiset(s) + multiset{x}
    ensures multiset(front + [last]) == multiset(s + [last]) + multiset{x}
  {
  }

  lemma SortedAbove(s: seq<int>, last: int)
    requires Sorted(s) && forall y :: y in s ==> y <= last
    ensures Sorted(s + [last])
  {
    assert forall i :: 0 <= i < |s| ==> s[i] in s;
  }

  function InsertionSort(s: seq<int>): (r: seq<int>)
    ensures Sorted(r) && multiset(r) == multiset(s)
  {
    if s == [] then []
    else
      var k := |s| - 1;
      assert s == s[..k] + [s[k]];
      Insert(InsertionSort(s[..k]), s[k])
  }

  /** What slices.Sort promises. */
  method Sort(a: array<int>)
    modifies a
    ensures Sorted(a[..]) && multiset(a[..]) == multiset(old(a[..]))
  {
    var sorted := InsertionSort(a[..]);
    assert |sorted| == |multiset(sorted)| == a.Length;
    forall i | 0 <= i < a.Length {
      a[i] := sorted[i];
    }
    assert a[..] == sorted;
  }

  lemma SameElements(s: seq<int>, t: seq<int>)
    requires multiset(s) == multiset(t)
    ensures Elements(s) == Elements(t)
  {
    forall x
      ensures x in s <==> x in t
    {
      assert x in s <==> x in multiset(s);
      assert x in t <==> x in multiset(t);
    }
  }

  /** Move each new value of a sorted array to the write index; the front then holds every value once. */
  method Deduplicate(a: array<int>) returns (n: nat)
    requires a.Length > 0 && Sorted(a[..])
    modifies a
    ensures n <= a.Length && Increasing(a[..n]) && Elements(a[..n]) == Elements(old(a[..]))
  {
    ghost var was := a[..];
    n := 1;
    var i := 1;
    while i < a.Length
      invariant 1 <= n <= i <= a.Length
      invariant forall k :: i - 1 <= k < a.Length ==> a[k] == was[k]
      invariant a[n - 1] == was[i - 1]
      invariant Increasing(a[..n])
      invariant Elements(a[..n]) == Elements(was[..i])
    {
      assert was[..i + 1] == was[..i] + [was[i]];
      if a[i] != a[i - 1] {
        ghost var front := a[..n];
        a[n] := a[i];
        assert a[..n] == front;
        assert a[..n + 1] == a[..n] + [was[i]];
        n := n + 1;
      } else {
        assert was[i - 1] in was[..i];
      }
      i := i + 1;
    }
    assert was[..i] == was;
  }

  /** The string's byte trigrams, each once, in increasing order. */
  method BuildTrigrams(s: seq<Byte>) returns (trigrams: seq<int>)
    ensures Increasing(trigrams) && Elements(trigrams) == TrigramSet(s)
  {
    if |s| < 3 {
      return [];
    }
    var a := new int[|s| - 2];
    for i := 0 to |s| - 2
      invariant forall k :: 0 <= k < i ==> a[k] == TrigramAt(s, k)
    {
      a[i] := TrigramAt(s, i);
    }
    ghost var all := a[..];
    AllTrigrams(s, all);
    Sort(a);
    SameElements(a[..], all);
    var n := Deduplicate(a);
    return a[..n];
  }

  lemma AllTrigrams(s: seq<Byte>, all: seq<int>)
    requires |s| >= 3 && |all| == |s| - 2
    requires forall k :: 0 <= k < |all| ==> all[k] == TrigramAt(s, k)
    ensures Elements(all) == TrigramSet(s)
  {
    forall x | x in TrigramSet(s)
      ensures x in all
    {
      var i :| 0 <= i < |s| - 2 && x == TrigramAt(s, i);
      assert all[i] == x;
    }
  }

  // ----- Jaccard similarity ------------------------------------------------------------------------

  /** |A * B| / |A + B|, and 1 for two empty sets. */
  function Jaccard(a: set<int>, b: set<int>): (r: real)
    ensures 0.0 <= r <= 1.0
  {
    if a == {} && b == {} then 1.0
    else
      UnionSize(a, b);
      InUnit(|a * b|, |a + b|);
      |a * b| as real / |a + b| as real
  }

  lemma InUnit(part: nat, whole: nat)
    requires part <= whole && whole > 0
    ensures 0.0 <= part as real / whole as real <= 1.0
  {
  }

  lemma UnionSize(a: set<int>, b: set<int>)
    ensures |a + b| == |a| + |b| - |a * b|
    ensures a != {} || b != {} ==> |a + b| > 0
    ensures |a * b| <= |a + b|
  {
    assert a + b == (a - b) + b;
    assert a == (a - b) + (a * b);
    assert a == {} || a + b != {};
    assert b == {} || a + b != {};
  }

  lemma {:induction false} IncreasingSize(s: seq<int>)
    requires Increasing(s)
    ensures |Elements(s)| == |s|
  {
    if s != [] {
      var k := |s| - 1;
      IncreasingSize(s[..k]);
      assert s == s[..k] + [s[k]];
      assert Elements(s) == Elements(s[..k]) + {s[k]};
    }
  }

  predicate AllBelow(s: seq<int>, t: seq<int>) {
    forall x, y :: x in s && y in t ==> x < y
  }

  /** The two-pointer merge of two increasing lists computes the similarity of their sets. */
  method JaccardSimilarity(a: seq<int>, b: seq<int>) returns (similarity: real)
    requires Increasing(a) && Increasing(b)
    ensures similarity == Jaccard(Elements(a), Elements(b))
  {
    hide Elements, AllBelow, Increasing, Jaccard;
    Beginning(a, b);
    if |a| == 0 && |b| == 0 {
      return 1.0;
    }
    var i, j := 0, 0;
    var intersection := 0;
    while i < |a| && j < |b|
      invariant 0 <= i <= |a| && 0 <= j <= |b|
      invariant intersection == |Elements(a[..i]) * Elements(b[..j])|
      invariant AllBelow(a[..i], b[j..]) && AllBelow(b[..j], a[i..])
    {
      if a[i] == b[j] {
        AdvanceEqual(a, b, i, j);
        intersection := intersection + 1;
        i, j := i + 1, j + 1;
      } else if a[i] < b[j] {
        AdvanceSmaller(a, b, i, j);
        i := i + 1;
      } else {
        AdvanceLarger(a, b, i, j);
        j := j + 1;
      }
    }
    Exhausted(a, b, i, j);
    Ratio(a, b, intersection);
    var union := |a| + |b| - intersection;
    return intersection as real / union as real;
  }

  lemma Ratio(a: seq<int>, b: seq<int>, intersection: nat)
    requires Increasing(a) && Increasing(b) && (|a| > 0 || |b| > 0)
    requires intersection == |Elements(a) * Elements(b)|
    ensures |a| + |b| - intersection > 0
    ensures Jaccard(Elements(a), Elements(b)) == intersection as real / (|a| + |b| - intersection) as real
  {
    hide Elements, Increasing;
    Beginning(a, b);
    IncreasingSize(a);
    IncreasingSize(b);
    UnionSize(Elements(a), Elements(b));
  }

  lemma Beginning(a: seq<int>, b: seq<int>)
    ensures AllBelow(a[..0], b) && AllBelow(b[..0], a) && Elements(a[..0]) == Elements(b[..0]) == {}
    ensures (Elements(a) == {} <==> |a| == 0) && (Elements(b) == {} <==> |b| == 0)
    ensures |a| == 0 && |b| == 0 ==> Jaccard(Elements(a), Elements(b)) == 1.0
  {
    assert |a| > 0 ==> a[0] in a;
    assert |b| > 0 ==> b[0] in b;
  }

  /** A smaller head on one side occurs on neither list's other part. */
  lemma AdvanceSmaller(a: seq<int>, b: seq<int>, i: nat, j: nat)
    requires Increasing(a) && Increasing(b) && i < |a| && j < |b| && a[i] < b[j]
    requires AllBelow(a[..i], b[j..]) && AllBelow(b[..j], a[i..])
    ensures AllBelow(a[..i + 1], b[j..]) && AllBelow(b[..j], a[i + 1..])
    ensures Elements(a[..i + 1]) * Elements(b[..j]) == Elements(a[..i]) * Elements(b[..j])
  {
    assert a[..i + 1] == a[..i] + [a[i]];
    assert a[i..] == [a[i]] + a[i + 1..];
    assert forall y :: y in b[j..] ==> b[j] <= y;
    assert a[i] in a[i..];
    assert a[i] !in b[..j];
  }

  lemma AdvanceLarger(a: seq<int>, b: seq<int>, i: nat, j: nat)
    requires Increasing(a) && Increasing(b) && i < |a| && j < |b| && b[j] < a[i]
    requires AllBelow(a[..i], b[j..]) && AllBelow(b[..j], a[i..])
    ensures AllBelow(a[..i], b[j + 1..]) && AllBelow(b[..j + 1], a[i..])
    ensures Elements(a[..i]) * Elements(b[..j + 1]) == Elements(a[..i]) * Elements(b[..j])
  {
    hide Elements, AllBelow, Increasing;
    AdvanceSmaller(b, a, j, i);
    assert Elements(a[..i]) * Elements(b[..j + 1]) == Elements(b[..j + 1]) * Elements(a[..i]);
    assert Elements(a[..i]) * Elements(b[..j]) == Elements(b[..j]) * Elements(a[..i]);
  }

  lemma AdvanceEqual(a: seq<int>, b: seq<int>, i: nat, j: nat)
    requires Increasing(a) && Increasing(b) && i < |a| && j < |b| && a[i] == b[j]
    requires AllBelow(a[..i], b[j..]) && AllBelow(b[..j], a[i..])
    ensures AllBelow(a[..i + 1], b[j + 1..]) && AllBelow(b[..j + 1], a[i + 1..])
    ensures |Elements(a[..i + 1]) * Elements(b[..j + 1])| == |Elements(a[..i]) * Elements(b[..j])| + 1
  {
    assert a[..i + 1] == a[..i] + [a[i]] && b[..j + 1] == b[..j] + [b[j]];
    assert a[i..] == [a[i]] + a[i + 1..] && b[j..] == [b[j]] + b[j + 1..];
    assert a[i] in a[i..] && b[j] in b[j..];
    assert a[i] !in b[..j] && b[j] !in a[..i];
    assert Elements(a[..i + 1]) * Elements(b[..j + 1]) == Elements(a[..i]) * Elements(b[..j]) + {a[i]};
  }

  lemma Exhausted(a: seq<int>, b: seq<int>, i: nat, j: nat)
    requires i <= |a| && j <= |b| && (i == |a| || j == |b|)
    requires AllBelow(a[..i], b[j..]) && AllBelow(b[..j], a[i..])
    ensures Elements(a[..i]) * Elements(b[..j]) == Elements(a) * Elements(b)
  {
    var a', b' := a[i..], b[j..];
    assert a == a[..i] + a' && b == b[..j] + b';
    forall x | x in a && x in b
      ensures x in a[..i] && x in b[..j]
    {
      assert x in a[..i] || x in a';
      assert x in b[..j] || x in b';
    }
  }

  /** The codes are those of the substrings of three bytes. */
  lemma TrigramsAreSubstrings(s: seq<Byte>, a: Byte, b: Byte, c: Byte)
    ensures Pack(a, b, c) in TrigramSet(s) <==> exists i ::
              0 <= i <= |s| - 3 && s[i] == a && s[i + 1] == b && s[i + 2] == c
  {
    if Pack(a, b, c) in TrigramSet(s) {
      var i :| 0 <= i < |s| - 2 && Pack(a, b, c) == TrigramAt(s, i);
      PackInjective(a, b, c, s[i], s[i + 1], s[i + 2]);
      assert s[i] == a && s[i + 1] == b && s[i + 2] == c;
    }
    if i :| 0 <= i <= |s| - 3 && s[i] == a && s[i + 1] == b && s[i + 2] == c {
      assert TrigramAt(s, i) in TrigramSet(s);
    }
  }

  /** Similarity is symmetric, one exactly for equal sets, and zero exactly for disjoint ones if not both are empty. */
  lemma JaccardMeans(a: set<int>, b: set<int>)
    ensures Jaccard(a, b) == Jaccard(b, a)
    ensures Jaccard(a, b) == 1.0 <==> a == b
    ensures Jaccard(a, b) == 0.0 <==> a * b == {} && (a != {} || b != {})
  {
    UnionSize(a, b);
    assert a * b == b * a && a + b == b + a;
    if a != {} || b != {} {
      var common, all := |a * b|, |a + b|;
      assert common as real / all as real == 1.0 <==> common == all;
      if common == all {
        EqualSize(a * b, a + b);
      }
      assert a == b ==> a * b == a + b;
    }
  }

  lemma EqualSize(a: set<int>, b: set<int>)
    requires a <= b && |a| == |b|
    ensures a == b
  {
    assert b == a + (b - a);
    assert |b| == |a| + |b - a|;
  }

  lemma JaccardOfNothing(b: set<int>)
    ensures Jaccard({}, b) == if b == {} then 1.0 else 0.0
  {
    var none: set<int> := {};
    assert none * b == {};
  }

  /** Queries of fewer than three bytes have no trigrams, so any two of them count as equal. */
  lemma ShortQueriesAreSimilar(s: seq<Byte>, t: seq<Byte>)
    requires |s| < 3
    ensures Jaccard(TrigramSet(s), TrigramSet(t)) == if |t| < 3 then 1.0 else 0.0
  {
    hide Jaccard;
    assert TrigramSet(s) == {};
    JaccardOfNothing(TrigramSet(t));
    if |t| >= 3 {
      assert TrigramAt(t, 0) in TrigramSet(t);
    } else {
      assert TrigramSet(t) == {};
    }
  }
}
