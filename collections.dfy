/** Order-preserving de-duplication, the one idea behind both an insertion-ordered dict's keys and a DataFrame's columns. */
module Collections {

  predicate Distinct<T(==)>(s: seq<T>) {
    forall i, j :: 0 <= i < j < |s| ==> s[i] != s[j]
  }

  /** The distinct elements of `s` in order of first appearance, built the way a loop with an
      `if x not in seen: seen.append(x)` test builds it. */
  function FirstSeen<T(==)>(s: seq<T>): (r: seq<T>)
    ensures Distinct(r)
    ensures forall i :: 0 <= i < |r| ==> r[i] in s
    ensures forall i :: 0 <= i < |s| ==> s[i] in r
    ensures |r| <= |s|
  {
    if |s| == 0 then []
    else
      var p := FirstSeen(s[..|s| - 1]);
      assert forall i :: 0 <= i < |s| - 1 ==> s[i] == s[..|s| - 1][i];
      if s[|s| - 1] in p then p else p + [s[|s| - 1]]
  }

  /** De-duplication keeps exactly the elements. */
  lemma FirstSeenMembers<T>(s: seq<T>, x: T)
    ensures x in FirstSeen(s) <==> x in s
  {
    if x in s {
      var i :| 0 <= i < |s| && s[i] == x;
    }
  }

  /** One more element is added at the end exactly when it has not been seen. */
  lemma FirstSeenSnoc<T>(s: seq<T>, x: T)
    ensures FirstSeen(s + [x]) == if x in FirstSeen(s) then FirstSeen(s) else FirstSeen(s) + [x]
  {
    assert (s + [x])[..|s|] == s;
  }

  /** The step of a loop that de-duplicates `a + b` one element of `b` at a time. */
  lemma FirstSeenExtend<T>(a: seq<T>, b: seq<T>, j: nat)
    requires j < |b|
    ensures FirstSeen(a + b[..j + 1]) ==
            if b[j] in FirstSeen(a + b[..j]) then FirstSeen(a + b[..j]) else FirstSeen(a + b[..j]) + [b[j]]
  {
    assert a + b[..j + 1] == (a + b[..j]) + [b[j]];
    FirstSeenSnoc(a + b[..j], b[j]);
  }

  /** The index of the first occurrence of `x` in `s` (`s.index(x)`). */
  function FirstIndex<T(==)>(s: seq<T>, x: T): (r: nat)
    requires x in s
    ensures r < |s| && s[r] == x && x !in s[..r]
  {
    if s[0] == x then 0
    else
      var k := FirstIndex(s[1..], x);
      assert s[1..][..k] == s[1..k + 1];
      1 + k
  }

  /** The first index is the only index with "equal to `x`, no `x` before". */
  lemma FirstIndexUnique<T>(s: seq<T>, x: T, k: nat)
    requires k < |s| && s[k] == x && x !in s[..k]
    ensures FirstIndex(s, x) == k
  {
    var f := FirstIndex(s, x);
    assert forall i :: 0 <= i < k ==> s[..k][i] == s[i];
    assert forall i :: 0 <= i < f ==> s[..f][i] == s[i];
  }

  lemma FirstIndexSnoc<T>(s: seq<T>, y: T, x: T)
    requires x in s
    ensures FirstIndex(s + [y], x) == FirstIndex(s, x)
  {
    var f := FirstIndex(s, x);
    assert (s + [y])[..f] == s[..f];
    FirstIndexUnique(s + [y], x, f);
  }

  /** Behind a stretch without `x`, the first index of `x` moves by the stretch's length. */
  lemma FirstIndexAfter<T>(a: seq<T>, b: seq<T>, x: T)
    requires x !in a && x in b
    ensures FirstIndex(a + b, x) == |a| + FirstIndex(b, x)
  {
    var f := FirstIndex(b, x);
    assert (a + b)[..|a| + f] == a + b[..f];
    assert (a + b)[|a| + f] == x;
    assert x !in a + b[..f];
    FirstIndexUnique(a + b, x, |a| + f);
  }

  /** `FirstSeen` lists elements in the order of their first occurrence in `s`. */
  lemma {:induction false} FirstSeenInOrder<T>(s: seq<T>, i: nat, j: nat)
    requires i < j < |FirstSeen(s)|
    ensures FirstIndex(s, FirstSeen(s)[i]) < FirstIndex(s, FirstSeen(s)[j])
  {
    var p := s[..|s| - 1];
    var last := s[|s| - 1];
    assert s == p + [last];
    var fp := FirstSeen(p);
    var fs := FirstSeen(s);
    assert fs[i] in p by { assert fs[i] == fp[i]; }
    FirstIndexSnoc(p, last, fs[i]);
    if j < |fp| {
      assert fs[j] == fp[j];
      FirstIndexSnoc(p, last, fs[j]);
      FirstSeenInOrder(p, i, j);
    } else {
      assert fs[j] == last && last !in p;
      assert s[..|p|] == p;
      FirstIndexUnique(s, last, |p|);
    }
  }

  /** A sequence without repetitions is its own de-duplication. */
  lemma {:induction false} FirstSeenOfDistinct<T>(s: seq<T>)
    requires Distinct(s)
    ensures FirstSeen(s) == s
  {
    if |s| > 0 {
      var p := s[..|s| - 1];
      assert Distinct(p);
      FirstSeenOfDistinct(p);
      assert s[|s| - 1] !in p;
      assert s == p + [s[|s| - 1]];
    }
  }

  /** In a sequence without repetitions every member occurs exactly once. */
  lemma {:induction false} DistinctMultiplicity<T>(s: seq<T>, x: T)
    requires Distinct(s)
    ensures multiset(s)[x] == if x in s then 1 else 0
  {
    if |s| > 0 {
      var p := s[1..];
      assert s == [s[0]] + p;
      assert Distinct(p);
      DistinctMultiplicity(p, x);
      assert s[0] !in p;
    }
  }

  /** Two sequences without repetitions that hold the same elements are permutations of each other. */
  lemma DistinctSameElementsPermutation<T>(a: seq<T>, b: seq<T>)
    requires Distinct(a) && Distinct(b)
    requires forall i :: 0 <= i < |a| ==> a[i] in b
    requires forall i :: 0 <= i < |b| ==> b[i] in a
    ensures multiset(a) == multiset(b)
  {
    forall x ensures multiset(a)[x] == multiset(b)[x] {
      DistinctMultiplicity(a, x);
      DistinctMultiplicity(b, x);
    }
  }

  /** De-duplicating `a + b` keeps a repetition-free `a` as it is, at the front. */
  lemma {:induction false} FirstSeenKeepsPrefix<T>(a: seq<T>, b: seq<T>)
    requires Distinct(a)
    ensures |a| <= |FirstSeen(a + b)| && FirstSeen(a + b)[..|a|] == a
    decreases |b|
  {
    if |b| == 0 {
      assert a + b == a;
      FirstSeenOfDistinct(a);
    } else {
      var b', x := b[..|b| - 1], b[|b| - 1];
      FirstSeenKeepsPrefix(a, b');
      assert a + b == (a + b') + [x];
      KeepsPrefixStep(a, a + b', x);
    }
  }

  lemma KeepsPrefixStep<T>(a: seq<T>, c: seq<T>, x: T)
    requires |a| <= |FirstSeen(c)| && FirstSeen(c)[..|a|] == a
    ensures |a| <= |FirstSeen(c + [x])| && FirstSeen(c + [x])[..|a|] == a
  {
    FirstSeenSnoc(c, x);
    var f := FirstSeen(c);
    if x !in f {
      PrefixOfSnoc(f, x, |a|);
    }
  }

  lemma PrefixOfSnoc<T>(f: seq<T>, x: T, n: nat)
    requires n <= |f|
    ensures |f + [x]| > |f| && (f + [x])[..n] == f[..n]
  {
  }

  /** Where an index of `a + b` falls. */
  lemma IndexOfAppend<T>(a: seq<T>, b: seq<T>, k: nat)
    requires k < |a + b|
    ensures k < |a| ==> (a + b)[k] == a[k]
    ensures k >= |a| ==> (a + b)[k] == b[k - |a|] && (a + b)[k] in b
  {
  }

  /** The last characters of `a + b` are those of `b`. */
  lemma LastCharsOfAppend<T>(a: seq<T>, b: seq<T>, k: nat)
    requires 0 < k <= |b|
    ensures (a + b)[|a + b| - k] == b[|b| - k]
  {
  }

  lemma Regroup<T>(a: seq<T>, b: seq<T>, c: seq<T>, d: seq<T>, e: seq<T>)
    ensures a + (b + (c + d)) + e == (a + b + c) + (d + e)
  {
  }

  lemma AppendAssoc<T>(a: seq<T>, b: seq<T>, c: seq<T>)
    ensures (a + b) + c == a + (b + c)
  {
  }
}
