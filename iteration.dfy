/**
 * LookupIterator: the iterator over every stored usage, bucket after bucket in the
 * order the map yields its values, each bucket in the order its usages were added.
 */
module Iteration {
  import opened Basics
  import opened Vocabulary
  import opened Normalization
  import opened Store

  /** `order` lists every key of `m` exactly once: the order in which the map yields its values. */
  ghost predicate IsEnumeration(order: seq<string>, m: map<string, seq<Usage>>)
  {
    && (forall i, j :: 0 <= i < j < |order| ==> order[i] != order[j])
    && (forall k :: k in m <==> k in order)
  }

  /** The buckets of `m`, taken in `order`. */
  function Values(m: map<string, seq<Usage>>, order: seq<string>): (vs: seq<seq<Usage>>)
    requires forall i :: 0 <= i < |order| ==> order[i] in m
    ensures |vs| == |order| && forall i :: 0 <= i < |order| ==> vs[i] == m[order[i]]
  {
    seq(|order|, i requires 0 <= i < |order| => m[order[i]])
  }

  /** How often `x` occurs in the buckets listed by `order`: its count in the bucket of
      `k` when only that bucket can hold it. */
  lemma {:induction false} CountInOneBucket(m: map<string, seq<Usage>>, order: seq<string>, x: Usage, k: string)
    requires forall i :: 0 <= i < |order| ==> order[i] in m
    requires forall i, j :: 0 <= i < j < |order| ==> order[i] != order[j]
    requires forall i :: 0 <= i < |order| && order[i] != k ==> x !in m[order[i]]
    ensures multiset(Flatten(Values(m, order)))[x] == if k in order then multiset(m[k])[x] else 0
  {
    if order != [] {
      var rest := order[1..];
      assert Values(m, order)[1..] == Values(m, rest);
      CountInOneBucket(m, rest, x, k);
      if order[0] == k {
        assert k !in rest;
      } else {
        assert x !in m[order[0]];
        assert multiset(m[order[0]])[x] == 0;
      }
    }
  }

  /** Filtering keeps every copy of an element it accepts. */
  lemma {:induction false} FilterKeepsCount<T>(p: T -> bool, s: seq<T>, x: T)
    requires p(x)
    ensures multiset(Filter(p, s))[x] == multiset(s)[x]
  {
    if s != [] {
      var init := s[..|s| - 1];
      FilterKeepsCount(p, init, x);
      assert s == init + [s[|s| - 1]];
    }
  }

  /** Walking all buckets yields every stored usage exactly as often as it was added,
      so the iterator yields `size()` usages. */
  lemma IterationYieldsStoredUsages(env: Env, us: seq<Usage>, order: seq<string>)
    requires forall i :: 0 <= i < |us| ==> KeyOf(env, us[i]).Some?
    requires IsEnumeration(order, BucketsOf(env, us))
    ensures multiset(Flatten(Values(BucketsOf(env, us), order))) == multiset(us)
    ensures |Flatten(Values(BucketsOf(env, us), order))| == |us|
  {
    var m := BucketsOf(env, us);
    var all := Flatten(Values(m, order));
    forall x: Usage
      ensures multiset(all)[x] == multiset(us)[x]
    {
      if KeyOf(env, x).Some? {
        var k := KeyOf(env, x).value;
        forall i | 0 <= i < |order| && order[i] != k
          ensures x !in m[order[i]]
        {
          BucketsAreFiledUsages(env, us, order[i]);
        }
        CountInOneBucket(m, order, x, k);
        BucketsAreFiledUsages(env, us, k);
        FilterKeepsCount((u: Usage) => KeyOf(env, u) == Some(k), us, x);
      } else {
        forall i | 0 <= i < |order|
          ensures x !in m[order[i]]
        {
          BucketsAreFiledUsages(env, us, order[i]);
        }
        CountInOneBucket(m, order, x, "");
        if "" in order {
          assert x !in m[""];
        }
        assert x !in us;
      }
    }
    assert multiset(all) == multiset(us);
    assert |all| == |multiset(all)|;
  }

  /** The iterator: `canonIter` holds the buckets not yet entered, `iter` what is left
      of the current bucket (null before the first call to next). */
  class LookupIterator {
    var canonIter: seq<seq<Usage>>
    var iter: Option<seq<Usage>>

    ghost predicate Valid()
      reads this
    {
      forall i :: 0 <= i < |canonIter| ==> canonIter[i] != []
    }

    /** The usages the iterator is still to yield, in order. */
    ghost function Remaining(): seq<Usage>
      reads this
    {
      (if iter.Some? then iter.value else []) + Flatten(canonIter)
    }

    /** Starts before the first bucket; it will yield the buckets of `lookup`, in
        `order`, one after the other. */
    constructor(lookup: IdLookup, order: seq<string>)
      requires lookup.Valid() && IsEnumeration(order, lookup.usages)
      ensures Valid()
      ensures Remaining() == Flatten(Values(lookup.usages, order))
    {
      BucketsAreNonEmpty(lookup.env, lookup.added);
      canonIter := Values(lookup.usages, order);
      iter := None;
    }

    /** hasNext: true exactly when some usage is still to come. */
    method HasNext() returns (b: bool)
      requires Valid()
      ensures b <==> Remaining() != []
    {
      b := (iter.Some? && iter.value != []) || canonIter != [];
    }

    /** next: the next usage, entering the next bucket when the current one is used up;
        null (NoSuchElementException) when nothing is left. */
    method Next() returns (r: Option<Usage>)
      requires Valid()
      modifies this
      ensures Valid()
      ensures old(Remaining()) == [] ==> r.None? && Remaining() == []
      ensures old(Remaining()) != [] ==> r == Some(old(Remaining())[0]) && Remaining() == old(Remaining())[1..]
    {
      if iter.None? || iter.value == [] {
        if canonIter == [] {
          return None;
        }
        iter := Some(canonIter[0]);
        canonIter := canonIter[1..];
      }
      r := Some(iter.value[0]);
      iter := Some(iter.value[1..]);
    }
  }
}
