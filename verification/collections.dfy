/** Sequence helpers shared by the settings and reschedule models: element-wise
    replacement (QStringList rewrites) and duplicate removal (QSet round trips). */
module Collections {

  /** No value occurs twice in `xs`. */
  predicate NoDuplicates<T(==)>(xs: seq<T>)
  {
    forall i, j :: 0 <= i < j < |xs| ==> xs[i] != xs[j]
  }

  /** The distinct values of `xs`, each kept at its first occurrence.  This is
      one admissible order for a QSet converted back to a list. */
  function Distinct<T(==,!new)>(xs: seq<T>): (r: seq<T>)
    ensures NoDuplicates(r)
    ensures forall x :: x in r <==> x in xs
    ensures |r| <= |xs|
  {
    if |xs| == 0 then []
    else
      var rest := Distinct(xs[..|xs| - 1]);
      var last := xs[|xs| - 1];
      assert forall x :: x in xs <==> x in xs[..|xs| - 1] || x == last by {
        assert xs == xs[..|xs| - 1] + [last];
      }
      if last in rest then rest else rest + [last]
  }

  /** The number of values of a duplicate-free sequence is its length. */
  lemma {:induction false} DistinctCardinality<T>(xs: seq<T>)
    requires NoDuplicates(xs)
    ensures |set x | x in xs| == |xs|
  {
    if |xs| > 0 {
      var init := xs[..|xs| - 1];
      DistinctCardinality(init);
      assert xs == init + [xs[|xs| - 1]];
      assert (set x | x in xs) == (set x | x in init) + {xs[|xs| - 1]};
      assert xs[|xs| - 1] !in init;
    }
  }

  /** `xs` with every element equal to `from` replaced by `to`, all others kept in place. */
  function ReplaceAll<T(==)>(xs: seq<T>, from: T, to: T): (r: seq<T>)
    ensures |r| == |xs|
    ensures forall i :: 0 <= i < |xs| ==> r[i] == (if xs[i] == from then to else xs[i])
  {
    seq(|xs|, i requires 0 <= i < |xs| => if xs[i] == from then to else xs[i])
  }

  /** Replacing `from` by a fresh `to` and back again restores the original list. */
  lemma ReplaceAllInverse<T>(xs: seq<T>, from: T, to: T)
    requires to !in xs
    ensures ReplaceAll(ReplaceAll(xs, from, to), to, from) == xs
  {
  }

  /** The replacement leaves nothing to replace, unless `from` and `to` coincide. */
  lemma ReplaceAllIdempotent<T>(xs: seq<T>, from: T, to: T)
    ensures ReplaceAll(ReplaceAll(xs, from, to), from, to) == ReplaceAll(xs, from, to)
    ensures from != to ==> from !in ReplaceAll(xs, from, to)
  {
  }
}
