/**
 * The values the identifier lookup works on: the enumerations it reads, the
 * stored record (LookupUsage) and the collaborators it calls but does not define.
 */
module Vocabulary {
  import opened Basics

  /** A constant of the Rank enumeration, known by its name. */
  datatype Rank = Rank(name: string)

  /** A constant of the Kingdom enumeration, known by its name. */
  datatype Kingdom = Kingdom(name: string)

  /** A constant of the TaxonomicStatus enumeration, known by its name. */
  datatype TaxonomicStatus = TaxonomicStatus(name: string)

  const Unranked: Rank := Rank("UNRANKED")
  const IncertaeSedis: Kingdom := Kingdom("INCERTAE_SEDIS")
  const Accepted: TaxonomicStatus := TaxonomicStatus("ACCEPTED")

  /** The three-valued verdict of the authorship comparator. */
  datatype Equality = Equal | Different | Unknown

  /**
   * One known name usage (LookupUsage). `proParteKeys` maps a parent usage key to
   * the usage key under that parent, negated when that usage is deleted; it is
   * empty for a usage that is not a pro-parte group.
   */
  datatype Usage = Usage(
    key: int,
    proParteKeys: map<int, int>,
    canonical: Option<string>,
    authorship: Option<string>,
    year: Option<string>,
    rank: Rank,
    status: TaxonomicStatus,
    kingdom: Kingdom,
    deleted: bool)

  /**
   * The code the lookup calls without defining it. Each is left uninterpreted:
   *  - normalize: SciNameNormalizer.normalize;
   *  - rankNames, statusNames: the constant names Rank.valueOf and TaxonomicStatus.valueOf accept;
   *  - isAccepted: TaxonomicStatus.isAccepted;
   *  - rankMatch: RankUtils.match(requested, candidate);
   *  - kingdomMatch: KingdomUtils.match(requested, candidate);
   *  - kingdomByNubUsageKey: Kingdom.byNubUsageKey;
   *  - compareAuthorship: AuthorComparator.compare(authorship, year, otherAuthorship, otherYear);
   *  - maxKey: LookupUsage.getMaxKey.
   */
  datatype Env = Env(
    normalize: Option<string> -> Option<string>,
    rankNames: set<string>,
    statusNames: set<string>,
    isAccepted: TaxonomicStatus -> bool,
    rankMatch: (Rank, Rank) -> bool,
    kingdomMatch: (Kingdom, Kingdom) -> bool,
    kingdomByNubUsageKey: int -> Kingdom,
    compareAuthorship: (Option<string>, Option<string>, Option<string>, Option<string>) -> Equality,
    maxKey: Usage -> int)

  /** Why reading an exported row throws. */
  datatype LoadError =
    | NumberFormat(text: string)   // NumberFormatException from Integer.valueOf
    | UnknownName(name: string)    // IllegalArgumentException from an enum's valueOf
    | NullValue(column: nat)       // NullPointerException on a null column
}
