/** Sequence operations that stand for the java.util.List calls of the simulation:
    `removeIf` (Keep with the negated test) and `remove(Object)` (Remove). */
module Seqs {

  /** No element occurs twice: the head is not in the tail, and so on down the list. */
  ghost predicate Distinct<T>(s: seq<T>)
    decreases |s|
  {
    s == [] || (s[0] !in s[1..] && Distinct(s[1..]))
  }

  /** Two different places of a list without repeats hold different elements. */
  lemma {:induction false} DistinctAt<T>(s: seq<T>, i: nat, j: nat)
    requires Distinct(s) && i < |s| && j < |s| && i != j
    ensures s[i] != s[j]
    decreases |s|
  {
    if i == 0 {
      assert s[j] == s[1..][j - 1];
    } else if j == 0 {
      assert s[i] == s[1..][i - 1];
    } else {
      DistinctAt(s[1..], i - 1, j - 1);
    }
  }

  /** The element at `p` of a list without repeats occurs nowhere else in it. */
  lemma DistinctOthers<T>(s: seq<T>, p: nat)
    requires Distinct(s) && p < |s|
    ensures forall k :: 0 <= k < |s| && k != p ==> s[k] != s[p]
  {
    forall k | 0 <= k < |s| && k != p
      ensures s[k] != s[p]
    {
      DistinctAt(s, k, p);
    }
  }

  /** Dropping the last element keeps a list without repeats, and the last element is
      not among the others. */
  lemma DistinctInit<T>(s: seq<T>)
    requires Distinct(s) && s != []
    ensures Distinct(s[..|s| - 1]) && s[|s| - 1] !in s[..|s| - 1]
  {
    var n := |s| - 1;
    forall i, j | 0 <= i < j < |s[..n]|
      ensures s[..n][i] != s[..n][j]
    {
      DistinctAt(s, i, j);
    }
    DistinctAll(s[..n]);
    forall k | 0 <= k < n
      ensures s[..n][k] != s[n]
    {
      DistinctAt(s, k, n);
    }
  }

  /** Appending a new element keeps a list without repeats. */
  lemma {:induction false} DistinctAppend<T>(s: seq<T>, x: T)
    requires Distinct(s) && x !in s
    ensures Distinct(s + [x])
    decreases |s|
  {
    if s != [] {
      assert (s + [x])[1..] == s[1..] + [x];
      DistinctAppend(s[1..], x);
    }
  }

  /** A list without repeats is one whose places all hold different elements. */
  lemma {:induction false} DistinctAll<T>(s: seq<T>)
    requires forall i, j :: 0 <= i < j < |s| ==> s[i] != s[j]
    ensures Distinct(s)
    decreases |s|
  {
    if s != [] {
      assert forall i, j :: 0 <= i < j < |s[1..]| ==> s[1..][i] != s[1..][j] by {
        forall i, j | 0 <= i < j < |s[1..]|
          ensures s[1..][i] != s[1..][j]
        {
          assert s[1..][i] == s[i + 1] && s[1..][j] == s[j + 1];
        }
      }
      DistinctAll(s[1..]);
      forall k | 0 <= k < |s[1..]|
        ensures s[1..][k] != s[0]
      {
        assert s[1..][k] == s[k + 1];
      }
    }
  }

  /** `r` is obtained from `s` by deleting elements: the elements kept stay in order. */
  ghost predicate SubSeq<T>(r: seq<T>, s: seq<T>)
    decreases |s|
  {
    if r == [] then true
    else if s == [] then false
    else (r[0] == s[0] && SubSeq(r[1..], s[1..])) || SubSeq(r, s[1..])
  }

  lemma {:induction false} SubSeqRefl<T>(s: seq<T>)
    ensures SubSeq(s, s)
    decreases |s|
  {
    if s != [] {
      SubSeqRefl(s[1..]);
    }
  }

  /** Deleting elements keeps only elements of the original and never lengthens it. */
  lemma {:induction false} SubSeqIncluded<T>(r: seq<T>, s: seq<T>)
    requires SubSeq(r, s)
    ensures |r| <= |s|
    ensures forall x :: x in r ==> x in s
    decreases |s|
  {
    if r != [] {
      if r[0] == s[0] && SubSeq(r[1..], s[1..]) {
        SubSeqIncluded(r[1..], s[1..]);
        assert r == [r[0]] + r[1..];
      } else {
        SubSeqIncluded(r, s[1..]);
      }
    }
  }

  lemma {:induction false} SubSeqTrans<T>(a: seq<T>, b: seq<T>, c: seq<T>)
    requires SubSeq(a, b) && SubSeq(b, c)
    ensures SubSeq(a, c)
    decreases |c|
  {
    if a == [] {
    } else if b[0] == c[0] && SubSeq(b[1..], c[1..]) {
      if a[0] == b[0] && SubSeq(a[1..], b[1..]) {
        SubSeqTrans(a[1..], b[1..], c[1..]);
      } else {
        SubSeqTrans(a, b[1..], c[1..]);
      }
    } else {
      SubSeqTrans(a, b, c[1..]);
    }
  }

  /** The elements of `s` that satisfy `p`, in their order: `s` after `removeIf(!p)`.
      Every copy of an element that passes the test is kept, every copy of one that
      fails it is dropped. */
  function Keep<T(!new)>(s: seq<T>, p: T -> bool): (r: seq<T>)
    ensures forall i :: 0 <= i < |r| ==> r[i] in s && p(r[i])
    ensures forall i :: 0 <= i < |s| && p(s[i]) ==> s[i] in r
    ensures forall x :: Count(r, x) == if p(x) then Count(s, x) else 0
    ensures SubSeq(r, s)
    ensures |r| <= |s|
  {
    if s == [] then []
    else
      var rest := Keep(s[1..], p);
      if p(s[0]) then
        assert ([s[0]] + rest)[1..] == rest;
        [s[0]] + rest
      else
        rest
  }

  /** The number of copies of `x` in `s`. */
  ghost function Count<T>(s: seq<T>, x: T): nat
  {
    if s == [] then 0 else (if s[0] == x then 1 else 0) + Count(s[1..], x)
  }

  /** `Count` is the multiplicity of `x` in the multiset of `s`. */
  lemma {:induction false} CountIsMultiplicity<T>(s: seq<T>, x: T)
    ensures Count(s, x) == multiset(s)[x]
  {
    if s != [] {
      assert s == [s[0]] + s[1..];
      assert multiset(s) == multiset{s[0]} + multiset(s[1..]);
      CountIsMultiplicity(s[1..], x);
    }
  }

  /** The number of copies in `Keep` as a multiset: each element that passes keeps all its
      copies, each one that fails keeps none. */
  lemma KeepMultiset<T(!new)>(s: seq<T>, p: T -> bool)
    ensures forall x :: multiset(Keep(s, p))[x] == if p(x) then multiset(s)[x] else 0
  {
    forall x
      ensures multiset(Keep(s, p))[x] == if p(x) then multiset(s)[x] else 0
    {
      CountIsMultiplicity(Keep(s, p), x);
      CountIsMultiplicity(s, x);
    }
  }

  /** A non-empty sequence is its head followed by its tail. */
  lemma HeadTail<T>(s: seq<T>)
    requires s != []
    ensures s == [s[0]] + s[1..]
  {
  }

  /** `s` after `remove(x)`: the first occurrence of `x` is deleted, if there is one. */
  function Remove<T(==)>(s: seq<T>, x: T): (r: seq<T>)
    ensures x in s ==> |r| == |s| - 1
    ensures x !in s ==> r == s
    ensures forall i :: 0 <= i < |r| ==> r[i] in s
    ensures SubSeq(r, s)
    ensures Distinct(s) ==> x !in r && Distinct(r)
  {
    if s == [] then []
    else if s[0] == x then
      HeadTail(s);
      SubSeqSkip(s);
      s[1..]
    else
      var rest := Remove(s[1..], x);
      HeadTail(s);
      assert ([s[0]] + rest)[1..] == rest;
      assert Distinct(s) ==> s[0] !in s[1..];
      [s[0]] + rest
  }

  /** Removing `x` keeps every other element. */
  lemma {:induction false} RemoveKeeps<T>(s: seq<T>, x: T, y: T)
    requires y in s && y != x
    ensures y in Remove(s, x)
  {
    if s[0] != x && s[0] != y {
      RemoveKeeps(s[1..], x, y);
    }
  }

  /** Dropping the head is a deletion. */
  lemma SubSeqSkip<T>(s: seq<T>)
    requires s != []
    ensures SubSeq(s[1..], s)
  {
    SubSeqRefl(s[1..]);
    if s[1..] != [] {
      assert SubSeq(s[1..], s[1..]);
    }
  }

  /** The positions 0 .. n - 1, in order. */
  function Range(n: nat): (r: seq<nat>)
    ensures |r| == n && forall k :: 0 <= k < n ==> r[k] == k
  {
    seq(n, k requires 0 <= k < n => k as nat)
  }

  /** The positions 0 .. n - 1 have no repeats. */
  lemma RangeDistinct(n: nat)
    ensures Distinct(Range(n))
  {
    DistinctAll(Range(n));
  }

  /** `live` lists the elements of `was` at the positions `idx`, in that order. */
  ghost predicate Picks<T>(was: seq<T>, idx: seq<nat>, live: seq<T>)
  {
    |idx| == |live| && forall k {:trigger idx[k]} :: 0 <= k < |idx| ==> idx[k] < |was| && live[k] == was[idx[k]]
  }

  /** In a list without duplicates, removing an element is removing its position. */
  lemma {:induction false} PicksRemove<T>(was: seq<T>, idx: seq<nat>, live: seq<T>, l: nat)
    requires Distinct(was) && l < |was| && Picks(was, idx, live)
    ensures Picks(was, Remove(idx, l), Remove(live, was[l]))
  {
    if idx != [] {
      assert Picks(was, idx[1..], live[1..]);
      if idx[0] != l {
        DistinctAt(was, idx[0], l);
        PicksRemove(was, idx[1..], live[1..], l);
        PicksCons(was, idx[0], live[0], Remove(idx[1..], l), Remove(live[1..], was[l]));
      }
    }
  }

  /** Positions and elements can be put in front together. */
  lemma PicksCons<T>(was: seq<T>, i: nat, x: T, idx: seq<nat>, live: seq<T>)
    requires Picks(was, idx, live) && i < |was| && x == was[i]
    ensures Picks(was, [i] + idx, [x] + live)
  {
    assert forall k :: 1 <= k < |idx| + 1 ==> ([i] + idx)[k] == idx[k - 1] && ([x] + live)[k] == live[k - 1];
  }

  /** Appending one element and then a rest is putting the element in front of the rest. */
  lemma AppendOne<T>(s: seq<T>, x: T, rest: seq<T>)
    ensures (s + [x]) + rest == s + ([x] + rest)
  {
  }

  /** Cut at its length, a sequence is all prefix. */
  lemma Whole<T>(s: seq<T>, i: int)
    requires i == |s|
    ensures s[..i] == s
  {
  }
}
