/** Sequence utilities shared by the list-processing rules of both tiers
    (Array.prototype.filter and map on the client, list comprehensions on the server). */
module Seqs {

  /** The elements of `s` that `keep` accepts, in their original order. */
  function Filter<T>(keep: T -> bool, s: seq<T>): (r: seq<T>)
    ensures |r| <= |s|
    ensures forall i :: 0 <= i < |r| ==> keep(r[i])
    decreases |s|
  {
    if |s| == 0 then []
    else (if keep(s[0]) then [s[0]] else []) + Filter(keep, s[1..])
  }

  /** `f` applied to every element of `s`, in order. */
  function MapSeq<A, B>(f: A -> B, s: seq<A>): (r: seq<B>)
    ensures |r| == |s|
    ensures forall i :: 0 <= i < |s| ==> r[i] == f(s[i])
  {
    seq(|s|, i requires 0 <= i < |s| => f(s[i]))
  }

  /** Mapping distributes over concatenation. */
  lemma MapSeqConcat<A, B>(f: A -> B, s: seq<A>, t: seq<A>)
    ensures MapSeq(f, s + t) == MapSeq(f, s) + MapSeq(f, t)
  {
    assert forall i :: 0 <= i < |s + t| ==> MapSeq(f, s + t)[i] == (MapSeq(f, s) + MapSeq(f, t))[i];
  }

  lemma MapSeqCons<A, B>(f: A -> B, x: A, xs: seq<A>)
    ensures MapSeq(f, [x] + xs) == [f(x)] + MapSeq(f, xs)
  {
    assert forall i :: 0 < i < |xs| + 1 ==> ([x] + xs)[i] == xs[i - 1];
  }

  /** Filtering a mapped list with one more element in front. */
  lemma FilterMapCons<A, B>(f: A -> B, keep: B -> bool, x: A, xs: seq<A>)
    ensures Filter(keep, MapSeq(f, [x] + xs)) == (if keep(f(x)) then [f(x)] else []) + Filter(keep, MapSeq(f, xs))
  {
    MapSeqCons(f, x, xs);
    assert ([f(x)] + MapSeq(f, xs))[1..] == MapSeq(f, xs);
  }

  /** Filtering distributes over concatenation, which pins down that the order of the
      kept elements is the order they had in the input. */
  lemma {:induction false} FilterConcat<T>(keep: T -> bool, s: seq<T>, t: seq<T>)
    ensures Filter(keep, s + t) == Filter(keep, s) + Filter(keep, t)
    decreases |s|
  {
    if |s| == 0 {
      assert s + t == t;
    } else {
      assert (s + t)[1..] == s[1..] + t;
      FilterConcat(keep, s[1..], t);
    }
  }

  /** An element survives filtering iff it was in the input and is accepted. */
  lemma {:induction false} FilterMembership<T>(keep: T -> bool, s: seq<T>, x: T)
    ensures x in Filter(keep, s) <==> x in s && keep(x)
    decreases |s|
  {
    if |s| > 0 {
      FilterMembership(keep, s[1..], x);
      assert s == [s[0]] + s[1..];
    }
  }

  /** Filtering keeps every copy of an accepted element and no copy of a rejected one:
      the output is exactly the accepted part of the input, duplicates included. */
  lemma {:induction false} FilterCounts<T>(keep: T -> bool, s: seq<T>)
    ensures forall x :: multiset(Filter(keep, s))[x] == if keep(x) then multiset(s)[x] else 0
    decreases |s|
  {
    if |s| > 0 {
      FilterCounts(keep, s[1..]);
      assert s == [s[0]] + s[1..];
      assert multiset(s) == multiset{s[0]} + multiset(s[1..]);
    }
  }

  /** Filtering yields nothing iff no element is accepted. */
  lemma FilterEmpty<T>(keep: T -> bool, s: seq<T>)
    ensures Filter(keep, s) == [] <==> forall i :: 0 <= i < |s| ==> !keep(s[i])
  {
    if Filter(keep, s) == [] {
      forall i | 0 <= i < |s| ensures !keep(s[i]) {
        FilterMembership(keep, s, s[i]);
      }
    } else {
      FilterMembership(keep, s, Filter(keep, s)[0]);
    }
  }
}
