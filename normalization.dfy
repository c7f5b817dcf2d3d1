/**
 * The static helpers of IdLookupImpl: the lookup key of a name (norm) and the
 * column conversions used when rows are read (toInt, toKingdom, Rank.valueOf,
 * TaxonomicStatus.valueOf).
 */
module Normalization {
  import opened Basics
  import opened JavaText
  import opened Vocabulary

  /** The lookup key of a name: the normalised name lower-cased, or null when it is blank. */
  function Norm(env: Env, x: Option<string>): (r: Option<string>)
    ensures r.None? <==> IsBlank(env.normalize(x))
    ensures r.Some? ==> |r.value| == |env.normalize(x).value| && IsLowerCase(r.value) && !IsBlank(r)
  {
    ToLowerWhenPresent(env.normalize(x));
    var n := env.normalize(x);
    if IsBlank(n) then None else Some(ToLower(n.value))
  }

  lemma ToLowerWhenPresent(n: Option<string>)
    ensures !IsBlank(n) ==> |ToLower(n.value)| == |n.value| && IsLowerCase(ToLower(n.value)) && !IsBlank(Some(ToLower(n.value)))
  {
    if !IsBlank(n) {
      ToLowerProperties(n.value);
    }
  }

  /** The key under which `add` files a usage: the key of its canonical name. */
  function KeyOf(env: Env, u: Usage): Option<string>
  {
    Norm(env, u.canonical)
  }

  /** A key is null exactly when the normalised name is blank; otherwise it is the
      normalised name lower-cased, and it is neither blank nor upper-case anywhere. */
  lemma NormNullIffBlank(env: Env, x: Option<string>)
    ensures Norm(env, x).None? <==> IsBlank(env.normalize(x))
    ensures Norm(env, x).Some? ==>
      var n := env.normalize(x).value;
      && Norm(env, x).value == ToLower(n)
      && |Norm(env, x).value| == |n|
      && IsLowerCase(Norm(env, x).value)
      && !IsBlank(Norm(env, x))
  {
    if !IsBlank(env.normalize(x)) {
      ToLowerProperties(env.normalize(x).value);
    }
  }

  /** toInt: a null column stays null, anything else goes through Integer.valueOf. */
  function ToInt(x: Option<string>): (r: Result<Option<int>, LoadError>)
    ensures x.None? <==> r == Ok(None)
    ensures r.Ok? && r.value.Some? ==> x.Some? && ParseInt(x.value) == Ok(r.value.value) && IsInt32(r.value.value)
    ensures r.Err? <==> x.Some? && ParseInt(x.value).Err?
  {
    match x
    case None => Ok(None)
    case Some(s) =>
      match ParseInt(s)
      case Ok(n) => Ok(Some(n))
      case Err(t) => Err(NumberFormat(t))
  }

  /** toKingdom: a null kingdom key becomes INCERTAE_SEDIS; a key is looked up with
      Kingdom.byNubUsageKey; text that is not a number throws. */
  function ToKingdom(env: Env, x: Option<string>): (r: Result<Kingdom, LoadError>)
    ensures x.None? ==> r == Ok(IncertaeSedis)
    ensures r.Err? <==> x.Some? && ParseInt(x.value).Err?
    ensures r.Err? ==> r.error.NumberFormat?
    ensures x.Some? && ParseInt(x.value).Ok? ==> r == Ok(env.kingdomByNubUsageKey(ParseInt(x.value).value))
  {
    var k :- ToInt(x);
    Ok(if k.None? then IncertaeSedis else env.kingdomByNubUsageKey(k.value))
  }

  /** Rank.valueOf: a null name throws a NullPointerException, an unknown one an IllegalArgumentException. */
  function RankValueOf(env: Env, x: Option<string>, column: nat): (r: Result<Rank, LoadError>)
    ensures r.Ok? <==> x.Some? && x.value in env.rankNames
    ensures r.Ok? ==> r.value.name == x.value
    ensures x.None? ==> r == Err(NullValue(column))
    ensures x.Some? && x.value !in env.rankNames ==> r == Err(UnknownName(x.value))
  {
    match x
    case None => Err(NullValue(column))
    case Some(s) => if s in env.rankNames then Ok(Rank(s)) else Err(UnknownName(s))
  }

  /** TaxonomicStatus.valueOf, with the same failures as Rank.valueOf. */
  function StatusValueOf(env: Env, x: Option<string>, column: nat): (r: Result<TaxonomicStatus, LoadError>)
    ensures r.Ok? <==> x.Some? && x.value in env.statusNames
    ensures r.Ok? ==> r.value.name == x.value
    ensures x.None? ==> r == Err(NullValue(column))
    ensures x.Some? && x.value !in env.statusNames ==> r == Err(UnknownName(x.value))
  {
    match x
    case None => Err(NullValue(column))
    case Some(s) => if s in env.statusNames then Ok(TaxonomicStatus(s)) else Err(UnknownName(s))
  }

  /** An exported int column reads back as the int written, and an empty column as null. */
  lemma ToIntReadsWrittenInt(n: int)
    requires IsInt32(n)
    ensures ToInt(Some(IntToString(n))) == Ok(Some(n))
    ensures ToInt(None) == Ok(None)
  {
    ParseIntToString(n);
  }

  /** A null kingdom key reads as INCERTAE_SEDIS, never as an error; a written key reads
      as the kingdom Kingdom.byNubUsageKey gives for it. */
  lemma ToKingdomCases(env: Env, k: int)
    requires IsInt32(k)
    ensures ToKingdom(env, None) == Ok(IncertaeSedis)
    ensures ToKingdom(env, Some(IntToString(k))) == Ok(env.kingdomByNubUsageKey(k))
  {
    ToIntReadsWrittenInt(k);
  }

  /** The literal "t" is never a valid kingdom key. */
  lemma ToKingdomRejectsTrue(env: Env)
    ensures ToKingdom(env, Some("t")).Err?
  {
    TrueIsNotAnInt();
  }
}
