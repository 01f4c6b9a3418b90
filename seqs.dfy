/** Sequence helpers: projecting a column out of a table, the distinct
    labels of a column, and the fact that projecting commutes with
    reordering the rows. */
module Seqs {

  predicate NoDuplicates<T(==)>(xs: seq<T>) {
    forall i, j :: 0 <= i < j < |xs| ==> xs[i] != xs[j]
  }

  /** Applies f to every row, keeping the row order. */
  function MapSeq<A, B>(f: A -> B, s: seq<A>): (r: seq<B>)
    ensures |r| == |s|
    ensures forall i :: 0 <= i < |s| ==> r[i] == f(s[i])
  {
    seq(|s|, i requires 0 <= i < |s| => f(s[i]))
  }

  lemma MapSeqAppend<A, B>(f: A -> B, s: seq<A>, t: seq<A>)
    ensures MapSeq(f, s + t) == MapSeq(f, s) + MapSeq(f, t)
  {
    assert forall i :: 0 <= i < |s + t| ==> MapSeq(f, s + t)[i] == (MapSeq(f, s) + MapSeq(f, t))[i];
  }

  /** Reordering the rows reorders the projected column the same way, so the
      multiset of projected values depends only on the multiset of rows. */
  lemma {:induction false} MapSeqPermutation<A, B>(f: A -> B, s: seq<A>, t: seq<A>)
    requires multiset(s) == multiset(t)
    ensures multiset(MapSeq(f, s)) == multiset(MapSeq(f, t))
    decreases |s|
  {
    if s == [] {
      assert |t| == |multiset(t)| == |multiset(s)| == 0;
    } else {
      var x, tail := s[0], s[1..];
      assert s == [x] + tail;
      assert x in multiset(t);
      var j :| 0 <= j < |t| && t[j] == x;
      var rest := t[..j] + t[j + 1..];
      RemoveAt(t, j);
      assert multiset(tail) == multiset(rest);
      MapSeqPermutation(f, tail, rest);
      MapSeqCons(f, x, tail);
      MapSeqRemoveAt(f, t, j);
    }
  }

  lemma MapSeqCons<A, B>(f: A -> B, x: A, tail: seq<A>)
    ensures multiset(MapSeq(f, [x] + tail)) == multiset{f(x)} + multiset(MapSeq(f, tail))
  {
    MapSeqAppend(f, [x], tail);
    assert MapSeq(f, [x]) == [f(x)];
  }

  /** Removing the element at j takes one copy of it out of the multiset. */
  lemma RemoveAt<T>(t: seq<T>, j: nat)
    requires j < |t|
    ensures multiset(t[..j] + t[j + 1..]) == multiset(t) - multiset{t[j]}
  {
    assert t == t[..j] + [t[j]] + t[j + 1..];
  }

  /** Projecting a sequence with one element removed removes its image. */
  lemma MapSeqRemoveAt<A, B>(f: A -> B, t: seq<A>, j: nat)
    requires j < |t|
    ensures multiset(MapSeq(f, t)) == multiset(MapSeq(f, t[..j] + t[j + 1..])) + multiset{f(t[j])}
  {
    assert t == t[..j] + [t[j]] + t[j + 1..];
    MapSeqAppend(f, t[..j] + [t[j]], t[j + 1..]);
    MapSeqAppend(f, t[..j], [t[j]]);
    MapSeqAppend(f, t[..j], t[j + 1..]);
  }

  /** Extending a prefix by one element adds exactly that element. */
  lemma PrefixExtend<T>(xs: seq<T>, i: nat)
    requires i < |xs|
    ensures forall x :: x in xs[..i + 1] <==> x in xs[..i] || x == xs[i]
  {
    assert xs[..i + 1] == xs[..i] + [xs[i]];
  }

  /** Two columns holding the same values as often hold the same values. */
  lemma SameMultisetSameSet(xs: seq<string>, ys: seq<string>)
    requires multiset(xs) == multiset(ys)
    ensures (set x | x in xs) == (set y | y in ys)
  {
    assert forall x :: x in xs <==> x in multiset(ys);
  }

  /** The distinct values of a column, in order of first appearance. */
  function Distinct(xs: seq<string>): (ds: seq<string>)
    ensures NoDuplicates(ds)
    ensures forall x :: x in ds <==> x in xs
  {
    if xs == [] then []
    else
      var ds' := Distinct(xs[..|xs| - 1]);
      var last := xs[|xs| - 1];
      assert xs == xs[..|xs| - 1] + [last];
      if last in ds' then ds' else ds' + [last]
  }
}
