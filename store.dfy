/**
 * The lookup store of IdLookupImpl: a map from lookup key to the bucket of usages
 * filed under it, in the order they were added, with the counters size, deletedIds
 * and keyMax, and the queries that read it.
 */
module Store {
  import opened Basics
  import opened JavaText
  import opened Vocabulary
  import opened Normalization
  import opened Cascade

  /** The usages `add` keeps: those whose canonical name has a lookup key. */
  function Stored(env: Env, us: seq<Usage>): seq<Usage>
  {
    Filter((u: Usage) => KeyOf(env, u).Some?, us)
  }

  /** Adding two runs of usages keeps those of the first, then those of the second. */
  lemma StoredConcat(env: Env, a: seq<Usage>, b: seq<Usage>)
    ensures Stored(env, a + b) == Stored(env, a) + Stored(env, b)
  {
    FilterConcat((u: Usage) => KeyOf(env, u).Some?, a, b);
  }

  /** Adding one more usage after `base` and `us` keeps it exactly when it has a key. */
  lemma StoredStep(env: Env, base: seq<Usage>, us: seq<Usage>, u: Usage)
    ensures base + Stored(env, us + [u]) == (base + Stored(env, us)) + if KeyOf(env, u).Some? then [u] else []
  {
    StoredConcat(env, us, [u]);
    var one := [u];
    assert one[..0] == [];
    assert Stored(env, one) == if KeyOf(env, u).Some? then [u] else [];
    assert base + (Stored(env, us) + Stored(env, one)) == (base + Stored(env, us)) + Stored(env, one);
  }

  /** The usages filed under key `k`, in the order they were added. */
  function FiledUnder(env: Env, k: string, us: seq<Usage>): seq<Usage>
  {
    Filter((u: Usage) => KeyOf(env, u) == Some(k), us)
  }

  /** The buckets after adding `us` one by one to an empty store. */
  function BucketsOf(env: Env, us: seq<Usage>): map<string, seq<Usage>>
  {
    if us == [] then map[]
    else
      var m := BucketsOf(env, us[..|us| - 1]);
      var u := us[|us| - 1];
      match KeyOf(env, u)
      case None => m
      case Some(k) => m[k := (if k in m then m[k] else []) + [u]]
  }

  function CountDeleted(us: seq<Usage>): nat
  {
    if us == [] then 0
    else CountDeleted(us[..|us| - 1]) + (if us[|us| - 1].deleted then 1 else 0)
  }

  /** keyMax after adding `us`: it starts at 0 and takes the maximum with each getMaxKey. */
  function KeyMaxOf(env: Env, us: seq<Usage>): int
  {
    if us == [] then 0 else Max(KeyMaxOf(env, us[..|us| - 1]), env.maxKey(us[|us| - 1]))
  }

  /** Every bucket holds the usages filed under its key, in the order they were added,
      and a key is present exactly when some usage was filed under it; so no bucket is empty. */
  lemma {:induction false} BucketsAreFiledUsages(env: Env, us: seq<Usage>, k: string)
    ensures k in BucketsOf(env, us) ==> BucketsOf(env, us)[k] == FiledUnder(env, k, us)
    ensures k !in BucketsOf(env, us) ==> FiledUnder(env, k, us) == []
    ensures k in BucketsOf(env, us) <==> exists u :: u in us && KeyOf(env, u) == Some(k)
    ensures k in BucketsOf(env, us) ==> BucketsOf(env, us)[k] != []
  {
    if us != [] {
      var init := us[..|us| - 1];
      var u := us[|us| - 1];
      BucketsAreFiledUsages(env, init, k);
      assert forall v :: v in us <==> v in init || v == u;
      if KeyOf(env, u) == Some(k) {
        assert u in FiledUnder(env, k, us);
      }
    }
  }

  lemma BucketsAreNonEmpty(env: Env, us: seq<Usage>)
    ensures forall k :: k in BucketsOf(env, us) ==> BucketsOf(env, us)[k] != []
  {
    forall k | k in BucketsOf(env, us)
      ensures BucketsOf(env, us)[k] != []
    {
      BucketsAreFiledUsages(env, us, k);
    }
  }

  /** deletedIds never exceeds size. */
  lemma {:induction false} CountDeletedBound(us: seq<Usage>)
    ensures CountDeleted(us) <= |us|
    ensures CountDeleted(us) == |Filter((u: Usage) => u.deleted, us)|
  {
    if us != [] {
      CountDeletedBound(us[..|us| - 1]);
    }
  }

  /** keyMax is at least 0 and at least every added usage's getMaxKey, and it is one of
      those values unless it is still the initial 0. */
  lemma {:induction false} KeyMaxIsMaximum(env: Env, us: seq<Usage>)
    ensures KeyMaxOf(env, us) >= 0
    ensures forall i :: 0 <= i < |us| ==> env.maxKey(us[i]) <= KeyMaxOf(env, us)
    ensures KeyMaxOf(env, us) == 0 || exists i :: 0 <= i < |us| && env.maxKey(us[i]) == KeyMaxOf(env, us)
  {
    if us != [] {
      var init := us[..|us| - 1];
      KeyMaxIsMaximum(env, init);
      assert forall i :: 0 <= i < |init| ==> us[i] == init[i];
    }
  }

  /** One more usage with a key extends the three summaries as `add` does. */
  lemma AddStep(env: Env, us: seq<Usage>, u: Usage)
    requires KeyOf(env, u).Some?
    ensures var m := BucketsOf(env, us); var k := KeyOf(env, u).value;
      BucketsOf(env, us + [u]) == m[k := (if k in m then m[k] else []) + [u]]
    ensures CountDeleted(us + [u]) == CountDeleted(us) + (if u.deleted then 1 else 0)
    ensures KeyMaxOf(env, us + [u]) == Max(KeyMaxOf(env, us), env.maxKey(u))
    ensures (forall i :: 0 <= i < |us| ==> KeyOf(env, us[i]).Some?) ==>
      forall i :: 0 <= i < |us + [u]| ==> KeyOf(env, (us + [u])[i]).Some?
  {
    assert (us + [u])[..|us|] == us;
  }

  /** The in-memory identifier lookup: the usages map and the three counters. */
  class IdLookup {
    const env: Env
    var usages: map<string, seq<Usage>>
    var keyMax: int
    var counter: int
    var deleted: int
    /** The usages stored so far, in the order they were added. */
    ghost var added: seq<Usage>

    ghost predicate Valid()
      reads this
    {
      && usages == BucketsOf(env, added)
      && counter == |added|
      && deleted == CountDeleted(added)
      && keyMax == KeyMaxOf(env, added)
      && forall i :: 0 <= i < |added| ==> KeyOf(env, added[i]).Some?
    }

    /** An empty store. */
    constructor(env: Env)
      ensures Valid() && this.env == env && added == []
      ensures usages == map[] && counter == 0 && deleted == 0 && keyMax == 0
    {
      this.env := env;
      usages := map[];
      keyMax, counter, deleted := 0, 0, 0;
      added := [];
    }

    /**
     * add: a usage whose canonical name has no key is dropped and nothing changes;
     * otherwise it is appended to the bucket of its key (the key is created if new),
     * size grows by one, deletedIds by one for a deleted usage, and keyMax becomes the
     * larger of itself and the usage's getMaxKey.
     */
    method Add(u: Usage)
      requires Valid()
      modifies this
      ensures Valid()
      ensures added == old(added) + if KeyOf(env, u).Some? then [u] else []
      ensures KeyOf(env, u).None? ==>
        usages == old(usages) && counter == old(counter) && deleted == old(deleted) && keyMax == old(keyMax)
      ensures KeyOf(env, u).Some? ==>
        var k := KeyOf(env, u).value;
        && usages == old(usages)[k := (if k in old(usages) then old(usages)[k] else []) + [u]]
        && counter == old(counter) + 1
        && deleted == old(deleted) + (if u.deleted then 1 else 0)
        && keyMax == Max(old(keyMax), env.maxKey(u))
    {
      var key := Norm(env, u.canonical);
      if key.None? {
        return;
      }
      var k := key.value;
      AddStep(env, added, u);
      if k in usages {
        usages := usages[k := usages[k] + [u]];
      } else {
        usages := usages[k := [u]];
      }
      counter := counter + 1;
      if u.deleted {
        deleted := deleted + 1;
      }
      keyMax := Max(keyMax, env.maxKey(u));
      assert [] + [u] == [u];
      added := added + [u];
    }

    /** load(Iterable): every usage is added in turn. */
    method Load(us: seq<Usage>)
      requires Valid()
      modifies this
      ensures Valid()
      ensures added == old(added) + Stored(env, us)
    {
      for i := 0 to |us|
        invariant Valid()
        invariant added == old(added) + Stored(env, us[..i])
      {
        StoredStep(env, old(added), us[..i], us[i]);
        assert us[..i + 1] == us[..i] + [us[i]];
        Add(us[i]);
      }
      assert us[..|us|] == us;
    }

    /** size: the number of usages stored, deleted ones included. */
    function Size(): (n: int)
      reads this
      requires Valid()
      ensures n == |added|
    {
      counter
    }

    /** deletedIds: the number of stored usages flagged deleted; never more than size. */
    function DeletedIds(): (n: int)
      reads this
      requires Valid()
      ensures n == |Filter((u: Usage) => u.deleted, added)|
      ensures 0 <= n <= Size()
    {
      CountDeletedBound(added);
      deleted
    }

    /** getKeyMax: the largest getMaxKey of any stored usage, and 0 when none is larger. */
    function GetKeyMax(): (n: int)
      reads this
      requires Valid()
      ensures n >= 0
      ensures forall i :: 0 <= i < |added| ==> env.maxKey(added[i]) <= n
      ensures n == 0 || exists i :: 0 <= i < |added| && env.maxKey(added[i]) == n
    {
      KeyMaxIsMaximum(env, added);
      keyMax
    }

    /** match(canonicalName): every stored usage filed under the name's key, in the
        order they were added; nothing for a name without a key. */
    function MatchAll(canonicalName: Option<string>): (r: seq<Usage>)
      reads this
      requires Valid()
      ensures Norm(env, canonicalName).None? ==> r == []
      ensures Norm(env, canonicalName).Some? ==> r == FiledUnder(env, Norm(env, canonicalName).value, added)
    {
      var k := Norm(env, canonicalName);
      if k.None? then []
      else
        BucketsAreFiledUsages(env, added, k.value);
        if k.value in usages then usages[k.value] else []
    }

    /**
     * match(canonicalName, authorship, year, rank, status, kingdom). The bucket is
     * filtered on a copy, then the cascade runs. A non-null result is a survivor of
     * the filter; the store is not changed.
     */
    method Match(canonicalName: Option<string>, authorship: Option<string>, year: Option<string>,
                 rank: Option<Rank>, status: Option<TaxonomicStatus>, kingdom: Option<Kingdom>)
      returns (r: Option<Usage>)
      ensures r == MatchSpec(env, usages, Query(canonicalName, authorship, year, rank, status, kingdom))
      ensures Norm(env, canonicalName).None? ==> r.None?
      ensures Norm(env, canonicalName).Some? && Norm(env, canonicalName).value !in usages ==> r.None?
      ensures r.Some? ==>
        var k := Norm(env, canonicalName).value;
        && k in usages && r.value in usages[k]
        && Survives(env, Query(canonicalName, authorship, year, rank, status, kingdom), r.value)
    {
      var q := Query(canonicalName, authorship, year, rank, status, kingdom);
      var normed := Norm(env, canonicalName);
      if normed.None? {
        return None;
      }
      if normed.value !in usages {
        return None;
      }
      var hits := FilterBucket(env, q, usages[normed.value]);
      r := ResolveHits(env, q, hits);
    }

    /** match(canonicalName, rank, kingdom): the full match with no authorship, no year
        and the status ACCEPTED. */
    method MatchRankKingdom(canonicalName: Option<string>, rank: Option<Rank>, kingdom: Option<Kingdom>)
      returns (r: Option<Usage>)
      ensures r == MatchSpec(env, usages, Query(canonicalName, None, None, rank, Some(Accepted), kingdom))
    {
      r := Match(canonicalName, None, None, rank, Some(Accepted), kingdom);
    }
  }

  /** The filter of match: a candidate is dropped when a given rank or kingdom does not
      match it, or when authorship is compared and found DIFFERENT. */
  method FilterBucket(env: Env, q: Query, bucket: seq<Usage>) returns (hits: seq<Usage>)
    ensures hits == Survivors(env, q, bucket)
  {
    var compareAuthorship := q.authorship.Some? || q.year.Some?;
    hits := [];
    var i := 0;
    while i < |bucket|
      invariant 0 <= i <= |bucket|
      invariant hits == Survivors(env, q, bucket[..i])
    {
      var u := bucket[i];
      var keep := true;
      if (q.rank.Some? && !env.rankMatch(q.rank.value, u.rank)) || (q.kingdom.Some? && !env.kingdomMatch(q.kingdom.value, u.kingdom)) {
        keep := false;
      } else if compareAuthorship {
        var eq := env.compareAuthorship(q.authorship, q.year, u.authorship, u.year);
        if eq == Different {
          keep := false;
        }
      }
      SurvivorsStep(env, q, bucket, i);
      if keep {
        hits := hits + [u];
      }
      i := i + 1;
    }
    assert bucket[..|bucket|] == bucket;
  }

  /** The cascade of match over the survivors of the filter. */
  method ResolveHits(env: Env, q: Query, hits: seq<Usage>) returns (r: Option<Usage>)
    ensures r == Resolve(env, q, hits)
  {
    if |hits| == 1 {
      return Some(hits[0]);
    } else if |hits| > 1 {
      var exact := ExactMatch(q.canonicalName, q.authorship, q.year, hits);
      if exact.Some? {
        return exact;
      }
      var current := Current(hits);
      if |current| == 1 {
        return Some(current[0]);
      }
      if q.rank != Some(Unranked) && q.kingdom != Some(IncertaeSedis) {
        var m: Option<Usage> := None;
        if q.status.Some? {
          m := MatchByStatus(env, q.status.value, current);
          if m.None? {
            m := MatchByStatus(env, q.status.value, hits);
          }
        }
        if m.None? {
          m := SelectLowestKey(hits);
        }
        return m;
      }
    }
    return None;
  }

  /** selectLowestKey: the first candidate with the lowest key, null for none. */
  method SelectLowestKey(matches: seq<Usage>) returns (r: Option<Usage>)
    ensures r == LowestKey(matches)
  {
    r := None;
    for i := 0 to |matches|
      invariant r == LowestKey(matches[..i])
    {
      var u := matches[i];
      if r.None? || r.value.key > u.key {
        r := Some(u);
      }
      assert matches[..i + 1][..i] == matches[..i];
    }
    assert matches[..|matches|] == matches;
  }

  /** A prefix of the candidates has no more exact hits than all of them. */
  lemma ExactHitsOfPrefix(canonicalName: Option<string>, authorship: Option<string>, year: Option<string>,
                          candidates: seq<Usage>, n: int)
    requires 0 <= n <= |candidates|
    ensures |ExactHits(canonicalName, authorship, year, candidates[..n])| <= |ExactHits(canonicalName, authorship, year, candidates)|
  {
    assert candidates == candidates[..n] + candidates[n..];
    FilterConcat((u: Usage) => IsExact(canonicalName, authorship, year, u), candidates[..n], candidates[n..]);
  }

  /** One more candidate adds itself to the exact hits exactly when it is exact. */
  lemma ExactHitsStep(canonicalName: Option<string>, authorship: Option<string>, year: Option<string>,
                      candidates: seq<Usage>, i: int)
    requires 0 <= i < |candidates|
    ensures ExactHits(canonicalName, authorship, year, candidates[..i + 1])
         == ExactHits(canonicalName, authorship, year, candidates[..i])
          + if IsExact(canonicalName, authorship, year, candidates[i]) then [candidates[i]] else []
  {
    assert candidates[..i + 1][..i] == candidates[..i];
  }

  /** exactMatch: the one candidate equal to the query on the raw name, authorship and
      year; null when none is, and null as soon as a second one is found. */
  method ExactMatch(canonicalName: Option<string>, authorship: Option<string>, year: Option<string>,
                    candidates: seq<Usage>)
    returns (r: Option<Usage>)
    ensures r == UniqueExact(canonicalName, authorship, year, candidates)
  {
    r := None;
    ghost var hits: seq<Usage> := [];
    for i := 0 to |candidates|
      invariant hits == ExactHits(canonicalName, authorship, year, candidates[..i])
      invariant |hits| <= 1
      invariant r == if hits == [] then None else Some(hits[0])
    {
      var u := candidates[i];
      ExactHitsStep(canonicalName, authorship, year, candidates, i);
      if IsExact(canonicalName, authorship, year, u) {
        if r.Some? {
          ExactHitsOfPrefix(canonicalName, authorship, year, candidates, i + 1);
          return None;
        }
        r := Some(u);
        hits := [u];
      }
    }
    assert candidates[..|candidates|] == candidates;
  }
}
