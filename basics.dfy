/** Java's null and exceptions, as values, and the sequence helpers the model is built from. */
module Basics {

  /** A Java reference that may be null. */
  datatype Option<+T> = None | Some(value: T)

  /** A Java computation that either returns or throws. */
  datatype Result<+T, +E> = Ok(value: T) | Err(error: E) {
    predicate IsFailure() { Err? }

    function PropagateFailure<U>(): Result<U, E>
      requires Err?
    {
      Err(error)
    }

    function Extract(): T
      requires Ok?
    {
      value
    }
  }

  function Max(a: int, b: int): int
  {
    if a >= b then a else b
  }

  /** The elements of `s` that satisfy `p`, in their order in `s`. */
  function Filter<T>(p: T -> bool, s: seq<T>): (r: seq<T>)
    ensures |r| <= |s|
    ensures forall i :: 0 <= i < |r| ==> r[i] in s && p(r[i])
    ensures forall i :: 0 <= i < |s| && p(s[i]) ==> s[i] in r
  {
    if s == [] then []
    else Filter(p, s[..|s| - 1]) + (if p(s[|s| - 1]) then [s[|s| - 1]] else [])
  }

  lemma {:induction false} FilterConcat<T>(p: T -> bool, a: seq<T>, b: seq<T>)
    ensures Filter(p, a + b) == Filter(p, a) + Filter(p, b)
    decreases |b|
  {
    if b == [] {
      assert a + b == a;
    } else {
      var b' := b[..|b| - 1];
      assert (a + b)[..|a + b| - 1] == a + b';
      FilterConcat(p, a, b');
    }
  }

  /** When exactly one position of `s` satisfies `p`, filtering yields that element alone. */
  lemma {:induction false} FilterUnique<T>(p: T -> bool, s: seq<T>, i: int)
    requires 0 <= i < |s| && p(s[i])
    requires forall j :: 0 <= j < |s| && j != i ==> !p(s[j])
    ensures Filter(p, s) == [s[i]]
  {
    var pre, post := s[..i], s[i + 1..];
    assert s == pre + [s[i]] + post;
    FilterNone(p, pre);
    FilterNone(p, post);
    FilterConcat(p, pre + [s[i]], post);
    FilterConcat(p, pre, [s[i]]);
    assert [s[i]][..0] == [];
  }

  lemma {:induction false} FilterNone<T>(p: T -> bool, s: seq<T>)
    requires forall j :: 0 <= j < |s| ==> !p(s[j])
    ensures Filter(p, s) == []
  {
    if s != [] {
      FilterNone(p, s[..|s| - 1]);
    }
  }

  /** Two distinct positions satisfying `p` keep at least two elements. */
  lemma FilterTwo<T>(p: T -> bool, s: seq<T>, i: int, j: int)
    requires 0 <= i < j < |s| && p(s[i]) && p(s[j])
    ensures |Filter(p, s)| >= 2
  {
    assert s == s[..j] + s[j..];
    FilterConcat(p, s[..j], s[j..]);
    assert s[..j][i] == s[i];
    assert s[j] in s[j..];
    assert |Filter(p, s[..j])| >= 1 by { assert s[i] in Filter(p, s[..j]); }
    assert |Filter(p, s[j..])| >= 1 by { assert s[j] in Filter(p, s[j..]); }
  }

  /** When a filter keeps exactly one element, exactly one position satisfies `p`. */
  lemma FilterSingle<T>(p: T -> bool, s: seq<T>) returns (i: int)
    requires |Filter(p, s)| == 1
    ensures 0 <= i < |s| && p(s[i]) && s[i] == Filter(p, s)[0]
    ensures forall j :: 0 <= j < |s| && j != i ==> !p(s[j])
  {
    var x := Filter(p, s)[0];
    assert x in Filter(p, s);
    i :| 0 <= i < |s| && s[i] == x;
    forall j | 0 <= j < |s| && j != i
      ensures !p(s[j])
    {
      if p(s[j]) {
        if i < j { FilterTwo(p, s, i, j); } else { FilterTwo(p, s, j, i); }
      }
    }
  }

  /** Concatenation of a sequence of sequences, front to back. */
  function Flatten<T>(ss: seq<seq<T>>): seq<T>
  {
    if ss == [] then [] else ss[0] + Flatten(ss[1..])
  }

  lemma {:induction false} FlattenSnoc<T>(ss: seq<seq<T>>, s: seq<T>)
    ensures Flatten(ss + [s]) == Flatten(ss) + s
  {
    if ss == [] {
      assert ([] + [s])[1..] == [];
    } else {
      assert (ss + [s])[1..] == ss[1..] + [s];
      FlattenSnoc(ss[1..], s);
    }
  }
}
