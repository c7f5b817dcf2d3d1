/**
 * What `match(canonicalName, authorship, year, rank, status, kingdom)` returns, as a
 * function of the stored buckets: the lenient rank, kingdom and authorship filter,
 * then the cascade single survivor, unique exact match, unique current usage, and
 * the snap by status and lowest key, which is allowed only for a clear rank and kingdom.
 */
module Cascade {
  import opened Basics
  import opened Vocabulary
  import opened Normalization

  /** The arguments of one `match` call; a null argument is None. */
  datatype Query = Query(
    canonicalName: Option<string>,
    authorship: Option<string>,
    year: Option<string>,
    rank: Option<Rank>,
    status: Option<TaxonomicStatus>,
    kingdom: Option<Kingdom>)

  /** Authorship is compared only when the caller gave an authorship or a year. */
  predicate ComparesAuthorship(q: Query)
  {
    q.authorship.Some? || q.year.Some?
  }

  /** A candidate is kept unless a given rank or kingdom does not match it, or the
      authorship comparator calls its authorship DIFFERENT. */
  predicate Survives(env: Env, q: Query, u: Usage): (b: bool)
    ensures q.rank.Some? && !env.rankMatch(q.rank.value, u.rank) ==> !b
    ensures q.kingdom.Some? && !env.kingdomMatch(q.kingdom.value, u.kingdom) ==> !b
    ensures ComparesAuthorship(q) && env.compareAuthorship(q.authorship, q.year, u.authorship, u.year) == Different ==> !b
    ensures && (q.rank.None? || env.rankMatch(q.rank.value, u.rank))
            && (q.kingdom.None? || env.kingdomMatch(q.kingdom.value, u.kingdom))
            && (!ComparesAuthorship(q) || env.compareAuthorship(q.authorship, q.year, u.authorship, u.year) != Different)
            ==> b
  {
    && !(|| (q.rank.Some? && !env.rankMatch(q.rank.value, u.rank))
         || (q.kingdom.Some? && !env.kingdomMatch(q.kingdom.value, u.kingdom)))
    && (ComparesAuthorship(q) ==>
          env.compareAuthorship(q.authorship, q.year, u.authorship, u.year) != Different)
  }

  /** The candidates the filter keeps, in bucket order. */
  function Survivors(env: Env, q: Query, bucket: seq<Usage>): (r: seq<Usage>)
    ensures |r| <= |bucket|
    ensures forall u :: u in r <==> u in bucket && Survives(env, q, u)
  {
    Filter((u: Usage) => Survives(env, q, u), bucket)
  }

  /** Equal to the query on the raw, un-normalised canonical name, the authorship and the year. */
  predicate IsExact(name: Option<string>, authorship: Option<string>, year: Option<string>, u: Usage)
  {
    name == u.canonical && authorship == u.authorship && year == u.year
  }

  function ExactHits(name: Option<string>, authorship: Option<string>, year: Option<string>, s: seq<Usage>): seq<Usage>
  {
    Filter((u: Usage) => IsExact(name, authorship, year, u), s)
  }

  /** The exact match when there is exactly one, null when there is none or several. */
  function UniqueExact(name: Option<string>, authorship: Option<string>, year: Option<string>, s: seq<Usage>): Option<Usage>
  {
    var e := ExactHits(name, authorship, year, s);
    if |e| == 1 then Some(e[0]) else None
  }

  /** The usages that are not deleted. */
  function Current(s: seq<Usage>): seq<Usage>
  {
    Filter((u: Usage) => !u.deleted, s)
  }

  /** The position selectLowestKey picks: a minimal key, the first of equal minimal keys. */
  function LowestKeyIndex(s: seq<Usage>): (i: nat)
    requires s != []
    ensures i < |s|
    ensures forall j :: 0 <= j < |s| ==> s[i].key <= s[j].key
    ensures forall j :: 0 <= j < i ==> s[j].key > s[i].key
  {
    if |s| == 1 then 0
    else
      var i := LowestKeyIndex(s[..|s| - 1]);
      if s[i].key > s[|s| - 1].key then |s| - 1 else i
  }

  /** selectLowestKey: null for no candidates, otherwise the first of those with the lowest key. */
  function LowestKey(s: seq<Usage>): (r: Option<Usage>)
    ensures r.None? <==> s == []
    ensures r.Some? ==> r.value in s && forall u :: u in s ==> r.value.key <= u.key
    ensures r.Some? ==> exists i :: 0 <= i < |s| && s[i] == r.value && forall j :: 0 <= j < i ==> s[j].key > r.value.key
  {
    if s == [] then None else Some(s[LowestKeyIndex(s)])
  }

  /** `u` is what selectLowestKey picks among the elements of `s` that satisfy `p`:
      one of them whose key is minimal among them, and the first such in `s`. */
  ghost predicate FirstLowestWhere(p: Usage -> bool, s: seq<Usage>, u: Usage)
  {
    exists i :: FirstLowestAt(p, s, i) && s[i] == u
  }

  /** One more candidate replaces the lowest key only when its key is strictly lower. */
  lemma LowestKeySnoc(s: seq<Usage>, x: Usage)
    requires s != []
    ensures LowestKey(s + [x]) == if LowestKey(s).value.key > x.key then Some(x) else LowestKey(s)
  {
    assert (s + [x])[..|s|] == s;
  }

  /** Position `i` of `s` holds the first, among the elements satisfying `p`, of those
      with the lowest key. */
  ghost predicate FirstLowestAt(p: Usage -> bool, s: seq<Usage>, i: int)
  {
    && 0 <= i < |s| && p(s[i])
    && (forall j :: 0 <= j < |s| && p(s[j]) ==> s[i].key <= s[j].key)
    && (forall j :: 0 <= j < i && p(s[j]) ==> s[j].key > s[i].key)
  }

  /** A position that is first-lowest in a prefix stays so once an element is appended
      that is not lower. */
  lemma FirstLowestAtSnoc(p: Usage -> bool, init: seq<Usage>, x: Usage, i: int)
    requires FirstLowestAt(p, init, i)
    requires p(x) ==> init[i].key <= x.key
    ensures FirstLowestAt(p, init + [x], i)
  {
    var s := init + [x];
    assert forall j :: 0 <= j < |init| ==> s[j] == init[j];
  }

  /** An appended element lower than every kept element before it is first-lowest. */
  lemma FirstLowestAtLast(p: Usage -> bool, init: seq<Usage>, x: Usage)
    requires p(x) && forall j :: 0 <= j < |init| && p(init[j]) ==> init[j].key > x.key
    ensures FirstLowestAt(p, init + [x], |init|)
  {
    var s := init + [x];
    assert forall j :: 0 <= j < |init| ==> s[j] == init[j];
  }

  /** The first element a filter keeps is first-lowest among the kept ones. */
  lemma FirstKept(p: Usage -> bool, init: seq<Usage>, x: Usage)
    requires Filter(p, init) == [] && p(x)
    ensures FirstLowestAt(p, init + [x], |init|) && Filter(p, init + [x]) == [x]
  {
    assert (init + [x])[..|init|] == init;
    assert forall j :: 0 <= j < |init| ==> !p(init[j]);
    FirstLowestAtLast(p, init, x);
  }

  /** selectLowestKey over a filtered list picks, in the unfiltered order, the first of
      the kept elements with the lowest key. */
  lemma {:induction false} LowestKeyOfFilter(p: Usage -> bool, s: seq<Usage>) returns (i: int)
    requires Filter(p, s) != []
    ensures FirstLowestAt(p, s, i) && LowestKey(Filter(p, s)) == Some(s[i])
  {
    var init, x := s[..|s| - 1], s[|s| - 1];
    assert s == init + [x];
    var f := Filter(p, init);
    assert Filter(p, s) == f + if p(x) then [x] else [];
    if f == [] {
      FirstKept(p, init, x);
      i := |init|;
    } else {
      var k := LowestKeyOfFilter(p, init);
      if p(x) {
        LowestKeySnoc(f, x);
        if init[k].key > x.key {
          FirstLowestAtLast(p, init, x);
          i := |init|;
        } else {
          FirstLowestAtSnoc(p, init, x, k);
          i := k;
        }
      } else {
        assert Filter(p, s) == f;
        FirstLowestAtSnoc(p, init, x, k);
        i := k;
      }
    }
  }

  lemma FilteredLowestKey(p: Usage -> bool, s: seq<Usage>)
    requires Filter(p, s) != []
    ensures FirstLowestWhere(p, s, LowestKey(Filter(p, s)).value)
  {
    var i := LowestKeyOfFilter(p, s);
  }

  /** Filtering twice is filtering once by both conditions. */
  lemma {:induction false} FilterFilter(p: Usage -> bool, q: Usage -> bool, both: Usage -> bool, s: seq<Usage>)
    requires forall u :: both(u) == (q(u) && p(u))
    ensures Filter(p, Filter(q, s)) == Filter(both, s)
  {
    if s != [] {
      var init, x := s[..|s| - 1], s[|s| - 1];
      FilterFilter(p, q, both, init);
      var tail := if q(x) then [x] else [];
      FilterConcat(p, Filter(q, init), tail);
      assert [x][..0] == [];
    }
  }

  /** selectLowestKey over the candidates that satisfy `p`, as a stream filter collects them. */
  function LowestKeyWhere(p: Usage -> bool, s: seq<Usage>): (r: Option<Usage>)
    ensures r.None? <==> forall u :: u in s ==> !p(u)
    ensures r.Some? ==>
      && r.value in s && p(r.value)
      && (forall u :: u in s && p(u) ==> r.value.key <= u.key)
      && FirstLowestWhere(p, s, r.value)
  {
    var matches := Filter(p, s);
    if matches == [] then None
    else
      FilteredLowestKey(p, s);
      LowestKey(matches)
  }

  /**
   * matchByStatus: the lowest key among the candidates with the requested status;
   * failing that, for ACCEPTED the lowest key of all candidates, and for any other
   * status the lowest key among candidates on the same side of accepted versus not.
   * Among equal keys the first candidate wins.
   */
  function MatchByStatus(env: Env, status: TaxonomicStatus, candidates: seq<Usage>): (r: Option<Usage>)
    ensures r.Some? ==> r.value in candidates
    ensures r.None? <==>
      || candidates == []
      || (status != Accepted &&
          forall u :: u in candidates ==> env.isAccepted(u.status) != env.isAccepted(status))
    ensures (exists u :: u in candidates && u.status == status) ==>
      && r.Some? && r.value.status == status
      && (forall u :: u in candidates && u.status == status ==> r.value.key <= u.key)
      && FirstLowestWhere((u: Usage) => status == u.status, candidates, r.value)
    ensures (forall u :: u in candidates ==> u.status != status) && status == Accepted && r.Some? ==>
      && (forall u :: u in candidates ==> r.value.key <= u.key)
      && FirstLowestWhere((u: Usage) => true, candidates, r.value)
    ensures (forall u :: u in candidates ==> u.status != status) && status != Accepted && r.Some? ==>
      && env.isAccepted(r.value.status) == env.isAccepted(status)
      && (forall u :: u in candidates && env.isAccepted(u.status) == env.isAccepted(status) ==> r.value.key <= u.key)
      && FirstLowestWhere((u: Usage) => env.isAccepted(status) == env.isAccepted(u.status), candidates, r.value)
  {
    var matches := LowestKeyWhere((u: Usage) => status == u.status, candidates);
    if matches.Some? then matches
    else if status == Accepted then LowestKeyWhere((u: Usage) => true, candidates)
    else LowestKeyWhere((u: Usage) => env.isAccepted(status) == env.isAccepted(u.status), candidates)
  }

  /** Both the requested rank and kingdom are specific enough to force a choice. */
  predicate SnapAllowed(q: Query)
  {
    q.rank != Some(Unranked) && q.kingdom != Some(IncertaeSedis)
  }

  /** The snap: matchByStatus over the current hits, then over all hits, then the lowest key of all hits. */
  function Snap(env: Env, status: Option<TaxonomicStatus>, hits: seq<Usage>): (r: Option<Usage>)
    requires hits != []
    ensures r.Some? && r.value in hits
  {
    var byStatus :=
      if status.None? then None
      else
        var m := MatchByStatus(env, status.value, Current(hits));
        if m.Some? then m else MatchByStatus(env, status.value, hits);
    if byStatus.Some? then byStatus else LowestKey(hits)
  }

  /** The cascade over the survivors of the filter. */
  function Resolve(env: Env, q: Query, hits: seq<Usage>): (r: Option<Usage>)
    ensures r.Some? ==> r.value in hits
    ensures r.None? <==>
      || hits == []
      || (&& |hits| > 1
          && |ExactHits(q.canonicalName, q.authorship, q.year, hits)| != 1
          && |Current(hits)| != 1
          && !SnapAllowed(q))
  {
    if |hits| == 1 then Some(hits[0])
    else if hits == [] then None
    else
      var exact := UniqueExact(q.canonicalName, q.authorship, q.year, hits);
      if exact.Some? then exact
      else
        var current := Current(hits);
        if |current| == 1 then Some(current[0])
        else if SnapAllowed(q) then Snap(env, q.status, hits)
        else None
  }

  /** The result of `match` over the buckets `usages`. */
  function MatchSpec(env: Env, usages: map<string, seq<Usage>>, q: Query): (r: Option<Usage>)
    ensures Norm(env, q.canonicalName).None? ==> r.None?
    ensures Norm(env, q.canonicalName).Some? && Norm(env, q.canonicalName).value !in usages ==> r.None?
    ensures r.Some? ==>
      var k := Norm(env, q.canonicalName).value;
      && k in usages && r.value in usages[k] && Survives(env, q, r.value)
  {
    var k := Norm(env, q.canonicalName);
    if k.None? || k.value !in usages then None
    else Resolve(env, q, Survivors(env, q, usages[k.value]))
  }

  /** One more candidate joins the survivors exactly when it survives. */
  lemma SurvivorsStep(env: Env, q: Query, bucket: seq<Usage>, i: int)
    requires 0 <= i < |bucket|
    ensures Survivors(env, q, bucket[..i + 1])
         == Survivors(env, q, bucket[..i]) + if Survives(env, q, bucket[i]) then [bucket[i]] else []
  {
    assert bucket[..i + 1][..i] == bucket[..i];
  }

  /** Position `i` is the only one equal to the query on name, authorship and year. */
  predicate UniqueExactAt(q: Query, hits: seq<Usage>, i: int)
  {
    && 0 <= i < |hits|
    && IsExact(q.canonicalName, q.authorship, q.year, hits[i])
    && forall j :: 0 <= j < |hits| && j != i ==> !IsExact(q.canonicalName, q.authorship, q.year, hits[j])
  }

  /** Position `i` is the only one holding a usage that is not deleted. */
  predicate UniqueCurrentAt(hits: seq<Usage>, i: int)
  {
    && 0 <= i < |hits|
    && !hits[i].deleted
    && forall j :: 0 <= j < |hits| && j != i ==> hits[j].deleted
  }

  lemma UniqueExactCount(q: Query, hits: seq<Usage>)
    ensures |ExactHits(q.canonicalName, q.authorship, q.year, hits)| == 1 <==> exists i :: UniqueExactAt(q, hits, i)
    ensures forall i :: UniqueExactAt(q, hits, i) ==> ExactHits(q.canonicalName, q.authorship, q.year, hits) == [hits[i]]
  {
    var p := (u: Usage) => IsExact(q.canonicalName, q.authorship, q.year, u);
    if |ExactHits(q.canonicalName, q.authorship, q.year, hits)| == 1 {
      var i := FilterSingle(p, hits);
      assert UniqueExactAt(q, hits, i);
    }
    forall i | UniqueExactAt(q, hits, i)
      ensures ExactHits(q.canonicalName, q.authorship, q.year, hits) == [hits[i]]
    {
      FilterUnique(p, hits, i);
    }
  }

  lemma UniqueCurrentCount(hits: seq<Usage>)
    ensures |Current(hits)| == 1 <==> exists i :: UniqueCurrentAt(hits, i)
    ensures forall i :: UniqueCurrentAt(hits, i) ==> Current(hits) == [hits[i]]
  {
    var p := (u: Usage) => !u.deleted;
    if |Current(hits)| == 1 {
      var i := FilterSingle(p, hits);
      assert UniqueCurrentAt(hits, i);
    }
    forall i | UniqueCurrentAt(hits, i)
      ensures Current(hits) == [hits[i]]
    {
      FilterUnique(p, hits, i);
    }
  }

  /** Several survivors, one of them alone equal to the query: that one is the answer. */
  lemma CascadeUniqueExact(env: Env, q: Query, hits: seq<Usage>, i: int)
    requires |hits| > 1 && UniqueExactAt(q, hits, i)
    ensures Resolve(env, q, hits) == Some(hits[i])
  {
    UniqueExactCount(q, hits);
  }

  /** Several survivors and no single exact match (none, or a tie of two or more),
      but only one that is not deleted: that one is the answer. */
  lemma CascadeUniqueCurrent(env: Env, q: Query, hits: seq<Usage>, c: int)
    requires |hits| > 1
    requires forall i :: !UniqueExactAt(q, hits, i)
    requires UniqueCurrentAt(hits, c)
    ensures Resolve(env, q, hits) == Some(hits[c])
  {
    UniqueExactCount(q, hits);
    UniqueCurrentCount(hits);
  }

  /** Two equal exact matches decide nothing. */
  lemma ExactTieIsNotUnique(q: Query, hits: seq<Usage>, i: int, j: int)
    requires 0 <= i < j < |hits|
    requires IsExact(q.canonicalName, q.authorship, q.year, hits[i])
    requires IsExact(q.canonicalName, q.authorship, q.year, hits[j])
    ensures |ExactHits(q.canonicalName, q.authorship, q.year, hits)| >= 2
    ensures forall k :: !UniqueExactAt(q, hits, k)
  {
    FilterTwo((u: Usage) => IsExact(q.canonicalName, q.authorship, q.year, u), hits, i, j);
  }

  /** The situation in which the snap rule decides: several survivors, no single
      exact match and no single current usage. */
  ghost predicate Undecided(q: Query, hits: seq<Usage>)
  {
    && |hits| > 1
    && (forall i :: !UniqueExactAt(q, hits, i))
    && (forall i :: !UniqueCurrentAt(hits, i))
  }

  /** An undecided query with an UNRANKED rank or an INCERTAE_SEDIS kingdom matches nothing;
      with any other rank and kingdom (null included) it always matches a survivor. */
  lemma SnapGuard(env: Env, q: Query, hits: seq<Usage>)
    requires Undecided(q, hits)
    ensures Resolve(env, q, hits).None? <==> (q.rank == Some(Unranked) || q.kingdom == Some(IncertaeSedis))
    ensures Resolve(env, q, hits).Some? ==> Resolve(env, q, hits) == Snap(env, q.status, hits)
  {
    UniqueExactCount(q, hits);
    UniqueCurrentCount(hits);
  }

  /** Without a requested status the snap picks the lowest key of all survivors,
      the first of them when several share it. */
  lemma SnapLowestKeyWithoutStatus(env: Env, q: Query, hits: seq<Usage>)
    requires Undecided(q, hits) && SnapAllowed(q) && q.status.None?
    ensures Resolve(env, q, hits) == Some(hits[LowestKeyIndex(hits)])
    ensures exists i :: && 0 <= i < |hits| && Resolve(env, q, hits) == Some(hits[i])
                        && (forall j :: 0 <= j < |hits| ==> hits[i].key <= hits[j].key)
                        && (forall j :: 0 <= j < i ==> hits[j].key > hits[i].key)
  {
    SnapGuard(env, q, hits);
  }

  /** With a requested status held by some current survivor, the snap picks a current
      survivor with that status and the lowest key among them, the first of them in the
      order of the survivors when several share it. */
  lemma SnapPrefersCurrentWithStatus(env: Env, q: Query, hits: seq<Usage>, w: Usage)
    requires Undecided(q, hits) && SnapAllowed(q) && q.status.Some?
    requires w in hits && !w.deleted && w.status == q.status.value
    ensures var r := Resolve(env, q, hits);
      && r.Some? && r.value in hits && !r.value.deleted && r.value.status == q.status.value
      && (forall u :: u in hits && !u.deleted && u.status == q.status.value ==> r.value.key <= u.key)
      && FirstLowestWhere((u: Usage) => !u.deleted && u.status == q.status.value, hits, r.value)
  {
    SnapGuard(env, q, hits);
    var status := q.status.value;
    assert w in Current(hits);
    var m := MatchByStatus(env, status, Current(hits));
    assert m.Some? && m.value in Current(hits);
    forall u | u in hits && !u.deleted && u.status == status
      ensures m.value.key <= u.key
    {
      assert u in Current(hits);
    }
    var both := (u: Usage) => !u.deleted && u.status == status;
    FilterFilter((u: Usage) => status == u.status, (u: Usage) => !u.deleted, both, hits);
    assert m == LowestKeyWhere((u: Usage) => status == u.status, Current(hits));
    assert m == LowestKey(Filter(both, hits));
    FilteredLowestKey(both, hits);
  }

  /** For ACCEPTED, the default of the three-argument match, a current survivor is
      always preferred to deleted ones. */
  lemma SnapAcceptedPrefersCurrent(env: Env, q: Query, hits: seq<Usage>, w: Usage)
    requires |hits| > 1 && (forall i :: !UniqueExactAt(q, hits, i))
    requires SnapAllowed(q) && q.status == Some(Accepted)
    requires w in hits && !w.deleted
    ensures Resolve(env, q, hits).Some? && !Resolve(env, q, hits).value.deleted
  {
    UniqueExactCount(q, hits);
    UniqueCurrentCount(hits);
    assert w in Current(hits);
    var current := Current(hits);
    if |current| != 1 {
      var m := MatchByStatus(env, Accepted, current);
      assert m.Some? && m.value in current;
    }
  }
}
