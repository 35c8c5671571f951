/** Order-preserving filtering and element-wise mapping of sequences: the
    shape of a database query that keeps the table's order, and of a bulk
    UPDATE that rewrites every row in place. */
module Seqs {

  /** The elements of `s` that satisfy `keep`, in their original order. */
  function Filter<T>(s: seq<T>, keep: T -> bool): (r: seq<T>)
    ensures |r| <= |s|
    ensures forall x | x in r :: x in s && keep(x)
    ensures forall x | x in s && keep(x) :: x in r
    ensures IsSubsequence(r, s)
  {
    if s == [] then []
    else if keep(s[0]) then [s[0]] + Filter(s[1..], keep)
    else Filter(s[1..], keep)
  }

  /** Filtering with a test every element passes changes nothing. */
  lemma {:induction false} FilterKeepsAll<T>(s: seq<T>, keep: T -> bool)
    requires forall i | 0 <= i < |s| :: keep(s[i])
    ensures Filter(s, keep) == s
  {
    if s != [] {
      FilterKeepsAll(s[1..], keep);
    }
  }

  /** Filtering distributes over concatenation. */
  lemma {:induction false} FilterAppend<T>(a: seq<T>, b: seq<T>, keep: T -> bool)
    ensures Filter(a + b, keep) == Filter(a, keep) + Filter(b, keep)
  {
    if a == [] {
      assert a + b == b;
    } else {
      assert (a + b)[0] == a[0];
      assert (a + b)[1..] == a[1..] + b;
      FilterAppend(a[1..], b, keep);
    }
  }

  /** `f` applied to every element, positions unchanged. */
  function Map<T, U>(s: seq<T>, f: T -> U): (r: seq<U>)
    ensures |r| == |s|
    ensures forall i | 0 <= i < |s| :: r[i] == f(s[i])
    ensures forall x | x in s :: f(x) in r
  {
    if s == [] then [] else [f(s[0])] + Map(s[1..], f)
  }

  /** `a` can be obtained from `b` by deleting elements: `a` keeps `b`'s order. */
  ghost predicate IsSubsequence<T>(a: seq<T>, b: seq<T>)
  {
    if a == [] then true
    else if b == [] then false
    else if a[0] == b[0] then IsSubsequence(a[1..], b[1..])
    else IsSubsequence(a, b[1..])
  }

  /** Every element of a subsequence is an element of the sequence. */
  lemma {:induction false} SubsequenceMembers<T>(a: seq<T>, b: seq<T>)
    requires IsSubsequence(a, b)
    ensures forall x | x in a :: x in b
  {
    if a != [] && b != [] {
      if a[0] == b[0] {
        SubsequenceMembers(a[1..], b[1..]);
        forall x | x in a ensures x in b {
          if x != a[0] {
            var i :| 0 <= i < |a| && a[i] == x;
            assert x == a[1..][i - 1];
            assert x in b[1..];
          }
        }
      } else {
        SubsequenceMembers(a, b[1..]);
      }
    }
  }

  /** `rel` holds between every element and every later one. */
  ghost predicate Pairwise<T>(s: seq<T>, rel: (T, T) -> bool)
  {
    forall i, j | 0 <= i < j < |s| :: rel(s[i], s[j])
  }

  /** Deleting elements keeps every pairwise relation between those left,
      in particular their order and their distinctness. */
  lemma {:induction false} SubsequencePairwise<T>(a: seq<T>, b: seq<T>, rel: (T, T) -> bool)
    requires IsSubsequence(a, b) && Pairwise(b, rel)
    ensures Pairwise(a, rel)
  {
    if a != [] && b != [] {
      if a[0] == b[0] {
        SubsequencePairwise(a[1..], b[1..], rel);
        SubsequenceMembers(a[1..], b[1..]);
        forall j | 0 < j < |a| ensures rel(a[0], a[j]) {
          assert a[j] == a[1..][j - 1];
          assert a[j] in a[1..];
          assert a[j] in b[1..];
          var k :| 0 <= k < |b[1..]| && b[1..][k] == a[j];
          assert b[k + 1] == a[j];
        }
        forall i, j | 0 <= i < j < |a| ensures rel(a[i], a[j]) {
          if i > 0 {
            assert a[i] == a[1..][i - 1] && a[j] == a[1..][j - 1];
          }
        }
      } else {
        assert Pairwise(b[1..], rel) by {
          forall i, j | 0 <= i < j < |b[1..]| ensures rel(b[1..][i], b[1..][j]) {
            assert b[1..][i] == b[i + 1] && b[1..][j] == b[j + 1];
          }
        }
        SubsequencePairwise(a, b[1..], rel);
      }
    }
  }

  /** The concatenation of a sequence of sequences. */
  function Flatten<T>(ss: seq<seq<T>>): (r: seq<T>)
  {
    if ss == [] then [] else ss[0] + Flatten(ss[1..])
  }

  lemma {:induction false} FlattenAppend<T>(ss: seq<seq<T>>, s: seq<T>)
    ensures Flatten(ss + [s]) == Flatten(ss) + s
  {
    if ss == [] {
      assert [s][1..] == [];
    } else {
      assert (ss + [s])[1..] == ss[1..] + [s];
      FlattenAppend(ss[1..], s);
    }
  }
}
