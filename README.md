# Identifier lookup of the GBIF backbone builder

This project models `IdLookupImpl`, the exact-name identifier lookup of the
checklistbank backbone ("nub") builder, and proves properties of the model. The
lookup files every known name usage (a `LookupUsage`) in a bucket under the key of
its canonical name. The key is the normalised name in lower case. The lookup counts
the usages it stores, the deleted ones among them, and the largest usage key.
A query for a name runs this cascade:

1. a lenient rank, kingdom and authorship filter over the name's bucket;
2. a single survivor wins;
3. then a unique exact textual match;
4. then a unique survivor that is not deleted;
5. then, when the requested rank and kingdom are clear, a "snap" by taxonomic status
   and lowest key;
6. otherwise nothing.

Two row readers fill the lookup from exported tables. `UsageWriter` turns each
8-column plain-usage row into one usage. `ProParteUsageWriter` folds the 10-column
pro-parte rows, sorted by their pro-parte key, into one usage per run of rows that
share that key. That usage maps each parent key to a usage key. The reader is meant
to negate the key of a deleted usage, but as written it never does for the exported rows, whose
column 8 is the kingdom key (see Findings and `Loading.AsWrittenIgnoresDeletedFlag`).
An iterator walks every stored usage.

Modules, one file each:

- `basics.dfy` (`Basics`): `Option` for Java's null and `Result` for a call that may throw; sequence filters.
- `javatext.dfy` (`JavaText`): the Java text and integer semantics the lookup relies on:
  - `Integer.valueOf` on decimal text and int range;
  - `-1 * key` with 32-bit wrap-around;
  - `StringUtils.isBlank`;
  - `String.toLowerCase`.
- `vocabulary.dfy` (`Vocabulary`): the usage record, the enumerations, and `Env`. `Env` bundles the collaborators the lookup calls but does not define:
  - `SciNameNormalizer.normalize`;
  - `RankUtils.match` and `KingdomUtils.match`;
  - `AuthorComparator.compare`;
  - `Kingdom.byNubUsageKey`;
  - `TaxonomicStatus.isAccepted`;
  - `LookupUsage.getMaxKey`;
  - the constant names `Rank.valueOf` and `TaxonomicStatus.valueOf` accept.

  They stay uninterpreted.
- `normalization.dfy` (`Normalization`): `norm`, `toInt`, `toKingdom` and the enum `valueOf` calls.
- `cascade.dfy` (`Cascade`): what a query returns, as functions of the buckets, with the cascade and snap lemmas.
- `store.dfy` (`Store`):
  - the class `IdLookup`, with the fields `usages`, `keyMax`, `counter` and `deleted`, and its methods;
  - the loops `selectLowestKey` and `exactMatch`, each proved against its specification function.
- `iteration.dfy` (`Iteration`): the class `LookupIterator`.
- `loading.dfy` (`Loading`):
  - the two row readers, as classes over an `IdLookup`;
  - the pro-parte fold as a function;
  - the proof that the fold yields one usage per run.

The ghost field `IdLookup.added` records the usages stored so far, in order. The
class invariant ties the buckets and the three counters to it. Every method is
proved against that history.

## Model

All source paths are in `checklistbank-nub/src/main/java/org/gbif/nub/lookup/straight/IdLookupImpl.java`.

| member | source | states |
|---|---|---|
| Normalization.NormNullIffBlank | checklistbank-nub/src/main/java/org/gbif/nub/lookup/straight/IdLookupImpl.java:247-251 | the key of a name is null exactly when the normalised name is blank; otherwise it is the normalised name lower-cased, of the same length, with no upper-case letter, and not blank |
| Normalization.Norm | checklistbank-nub/src/main/java/org/gbif/nub/lookup/straight/IdLookupImpl.java:247-251 | the key of a name is null exactly when the normalised name is blank; otherwise it has the normalised name's length, no upper-case letter, and is not blank |
| JavaText.ToLowerProperties | checklistbank-nub/src/main/java/org/gbif/nub/lookup/straight/IdLookupImpl.java:250 | lower-casing keeps the length, leaves no upper-case letter, is idempotent, and keeps a string blank exactly when it was blank |
| Normalization.ToInt | checklistbank-nub/src/main/java/org/gbif/nub/lookup/straight/IdLookupImpl.java:243-245 | a null column reads as null and nothing else does; a number is what Integer.valueOf parses and lies in int range; the call throws exactly when Integer.valueOf rejects the text |
| JavaText.ParseIntToString | checklistbank-nub/src/main/java/org/gbif/nub/lookup/straight/IdLookupImpl.java:244 | Integer.valueOf reads back every int written in decimal |
| Normalization.ToIntReadsWrittenInt | checklistbank-nub/src/main/java/org/gbif/nub/lookup/straight/IdLookupImpl.java:243-245 | an exported int column reads back as that int, and an empty column as null |
| Normalization.ToKingdomCases | checklistbank-nub/src/main/java/org/gbif/nub/lookup/straight/IdLookupImpl.java:238-241 | a null kingdom key gives INCERTAE_SEDIS, never an error; a written key gives the kingdom of Kingdom.byNubUsageKey |
| Normalization.ToKingdomRejectsTrue | checklistbank-nub/src/main/java/org/gbif/nub/lookup/straight/IdLookupImpl.java:211 | the text "t" read as a kingdom key throws |
| Normalization.ToKingdom | checklistbank-nub/src/main/java/org/gbif/nub/lookup/straight/IdLookupImpl.java:238-241 | a null kingdom key gives INCERTAE_SEDIS; a number gives the kingdom Kingdom.byNubUsageKey assigns it; anything else throws a NumberFormatException, and nothing else throws |
| Normalization.RankValueOf | checklistbank-nub/src/main/java/org/gbif/nub/lookup/straight/IdLookupImpl.java:156 | Rank.valueOf succeeds exactly on a known rank name and returns that rank; a null name throws a NullPointerException naming the column, an unknown one an IllegalArgumentException |
| Normalization.StatusValueOf | checklistbank-nub/src/main/java/org/gbif/nub/lookup/straight/IdLookupImpl.java:157 | TaxonomicStatus.valueOf succeeds exactly on a known status name and returns that status; a null name throws a NullPointerException naming the column, an unknown one an IllegalArgumentException |
| JavaText.NegateInt32 | checklistbank-nub/src/main/java/org/gbif/nub/lookup/straight/IdLookupImpl.java:216 | `-1 * key` in int arithmetic is `-key`, except that Integer.MIN_VALUE stays itself |
| Store.BucketsAreFiledUsages | checklistbank-nub/src/main/java/org/gbif/nub/lookup/straight/IdLookupImpl.java:271-276 | each bucket holds exactly the added usages whose key it is, in the order they were added; a key is present exactly when some added usage has it; no bucket is empty |
| Store.BucketsAreNonEmpty | checklistbank-nub/src/main/java/org/gbif/nub/lookup/straight/IdLookupImpl.java:271-276 | no stored bucket is empty |
| Store.CountDeletedBound | checklistbank-nub/src/main/java/org/gbif/nub/lookup/straight/IdLookupImpl.java:277-280 | the deleted counter is the number of added usages flagged deleted and never exceeds the number added |
| Store.KeyMaxIsMaximum | checklistbank-nub/src/main/java/org/gbif/nub/lookup/straight/IdLookupImpl.java:281 | keyMax is at least 0 and at least every added usage's getMaxKey, and it equals one of them unless it is the initial 0 |
| Store.AddStep | checklistbank-nub/src/main/java/org/gbif/nub/lookup/straight/IdLookupImpl.java:271-281 | one more keyed usage appends itself to its bucket (creating it when new), adds its flag to the deleted count and takes the maximum into keyMax |
| Store.IdLookup.constructor | checklistbank-nub/src/main/java/org/gbif/nub/lookup/straight/IdLookupImpl.java:46-50 | a new lookup holds no bucket and all three counters are 0 |
| Store.IdLookup.Add | checklistbank-nub/src/main/java/org/gbif/nub/lookup/straight/IdLookupImpl.java:264-282 | a usage without a key (`Normalization.KeyOf`, line 265) changes nothing; otherwise only its bucket changes, gaining the usage at its end; counter grows by 1, deleted by 1 exactly for a deleted usage, and keyMax becomes the larger of itself and getMaxKey |
| Store.IdLookup.Load | checklistbank-nub/src/main/java/org/gbif/nub/lookup/straight/IdLookupImpl.java:82-90 | the usages are added in turn: the stored history grows by exactly the keyed usages of the input, in input order |
| Store.IdLookup.Size | checklistbank-nub/src/main/java/org/gbif/nub/lookup/straight/IdLookupImpl.java:431-433 | size is the number of stored usages, deleted ones included |
| Store.IdLookup.DeletedIds | checklistbank-nub/src/main/java/org/gbif/nub/lookup/straight/IdLookupImpl.java:439-441 | deletedIds is the number of stored usages flagged deleted, between 0 and size |
| Store.IdLookup.GetKeyMax | checklistbank-nub/src/main/java/org/gbif/nub/lookup/straight/IdLookupImpl.java:256-258 | getKeyMax bounds the getMaxKey of every stored usage, is at least 0, and is one of those values unless it is 0 |
| Store.IdLookup.MatchAll | checklistbank-nub/src/main/java/org/gbif/nub/lookup/straight/IdLookupImpl.java:290-296 | match(name) gives every stored usage filed under the name's key, in the order added, and nothing for a name without a key |
| Store.IdLookup.Match | checklistbank-nub/src/main/java/org/gbif/nub/lookup/straight/IdLookupImpl.java:298-367 | the result is the cascade over the name's bucket: none for a name without a key or without a bucket; a result is a member of the bucket that survives the filter; the store is not changed |
| Cascade.MatchSpec | checklistbank-nub/src/main/java/org/gbif/nub/lookup/straight/IdLookupImpl.java:298-367 | the specification of the six-argument match: none for a name without a key or without a bucket; a match is a member of the name's bucket that survives the filter |
| Cascade.Survives | checklistbank-nub/src/main/java/org/gbif/nub/lookup/straight/IdLookupImpl.java:306-321 | a candidate is dropped when a given rank does not match it, when a given kingdom does not match it, or when authorship is compared (authorship or year given, `ComparesAuthorship`, line 306) and judged DIFFERENT; it is kept otherwise |
| Cascade.Survivors | checklistbank-nub/src/main/java/org/gbif/nub/lookup/straight/IdLookupImpl.java:306-321 | the survivors are exactly the members of the bucket that pass the filter, no more than the bucket holds |
| Store.IdLookup.MatchRankKingdom | checklistbank-nub/src/main/java/org/gbif/nub/lookup/straight/IdLookupImpl.java:285-287 | match(name, rank, kingdom) is the full match with null authorship and year and status ACCEPTED |
| Store.FilterBucket | checklistbank-nub/src/main/java/org/gbif/nub/lookup/straight/IdLookupImpl.java:306-321 | the filter loop over a copy of the bucket computes the survivors, in bucket order |
| Store.ResolveHits | checklistbank-nub/src/main/java/org/gbif/nub/lookup/straight/IdLookupImpl.java:322-366 | the cascade over the survivors computes the specification of the cascade |
| Cascade.Resolve | checklistbank-nub/src/main/java/org/gbif/nub/lookup/straight/IdLookupImpl.java:322-366 | a result is one of the survivors; there is none exactly when nothing survives, or several survive with no unique exact match, no unique current one, and an UNRANKED rank or INCERTAE_SEDIS kingdom |
| Cascade.CascadeUniqueExact | checklistbank-nub/src/main/java/org/gbif/nub/lookup/straight/IdLookupImpl.java:326-332 | with several survivors, the only one equal to the query on raw name, authorship and year (`IsExact`, lines 412-414) is the answer |
| Cascade.UniqueExactCount | checklistbank-nub/src/main/java/org/gbif/nub/lookup/straight/IdLookupImpl.java:409-425 | there is exactly one exact hit exactly when a single position is exact, and that position's usage is the hit |
| Cascade.ExactTieIsNotUnique | checklistbank-nub/src/main/java/org/gbif/nub/lookup/straight/IdLookupImpl.java:415-418 | two exact candidates leave no unique exact match |
| Store.ExactMatch | checklistbank-nub/src/main/java/org/gbif/nub/lookup/straight/IdLookupImpl.java:409-425 | the loop returns the unique exact candidate, and null when there is none or a second one |
| Cascade.CascadeUniqueCurrent | checklistbank-nub/src/main/java/org/gbif/nub/lookup/straight/IdLookupImpl.java:334-344 | with several survivors and no unique exact match, the only survivor not deleted (`Current`, the `!isDeleted` stream filter of line 338) is the answer |
| Cascade.UniqueCurrentCount | checklistbank-nub/src/main/java/org/gbif/nub/lookup/straight/IdLookupImpl.java:337-340 | there is exactly one current survivor exactly when a single position is not deleted, and that one is it |
| Cascade.SnapGuard | checklistbank-nub/src/main/java/org/gbif/nub/lookup/straight/IdLookupImpl.java:346-366 | with several survivors, no unique exact and no unique current one, the result is null exactly for an UNRANKED rank or INCERTAE_SEDIS kingdom (a null rank or kingdom passes; `SnapAllowed`, line 346), and otherwise it is the snap |
| Cascade.Snap | checklistbank-nub/src/main/java/org/gbif/nub/lookup/straight/IdLookupImpl.java:349-361 | the snap always picks one of the survivors |
| Cascade.SnapLowestKeyWithoutStatus | checklistbank-nub/src/main/java/org/gbif/nub/lookup/straight/IdLookupImpl.java:357-360 | without a status the snap picks the survivor with the lowest key, the first among equal keys |
| Cascade.SnapPrefersCurrentWithStatus | checklistbank-nub/src/main/java/org/gbif/nub/lookup/straight/IdLookupImpl.java:349-355 | when some current survivor has the requested status, the snap picks a current survivor with that status and the lowest key among them, the first such in survivor order |
| Cascade.SnapAcceptedPrefersCurrent | checklistbank-nub/src/main/java/org/gbif/nub/lookup/straight/IdLookupImpl.java:346-362 | for ACCEPTED, once no unique exact match decides and the rank and kingdom allow the snap (neither UNRANKED nor INCERTAE_SEDIS, as `SnapAllowed` states line 346's test), some current survivor means the result is current |
| Cascade.MatchByStatus | checklistbank-nub/src/main/java/org/gbif/nub/lookup/straight/IdLookupImpl.java:388-404 | the lowest key among candidates with the status; failing that, for ACCEPTED the lowest key of all candidates, otherwise the lowest key among candidates on the same side of isAccepted; each time the first in candidate order among equal keys; null exactly when there are no candidates, or the status is not ACCEPTED and no candidate is on its side |
| Cascade.LowestKeyIndex | checklistbank-nub/src/main/java/org/gbif/nub/lookup/straight/IdLookupImpl.java:369-377 | the picked position has a minimal key and every earlier position a larger one |
| Cascade.LowestKey | checklistbank-nub/src/main/java/org/gbif/nub/lookup/straight/IdLookupImpl.java:369-377 | null exactly for no candidates, otherwise a candidate with a minimal key, every candidate before it having a larger key |
| Cascade.LowestKeyWhere | checklistbank-nub/src/main/java/org/gbif/nub/lookup/straight/IdLookupImpl.java:369-377 | selectLowestKey over the candidates that pass a filter: null exactly when none passes, otherwise a passing candidate with a minimal key among the passing ones, the first such in candidate order |
| Cascade.LowestKeyOfFilter | checklistbank-nub/src/main/java/org/gbif/nub/lookup/straight/IdLookupImpl.java:371-376 | the strict comparison makes selectLowestKey over a filtered list pick, in the unfiltered order, the first kept element with the lowest key |
| Store.SelectLowestKey | checklistbank-nub/src/main/java/org/gbif/nub/lookup/straight/IdLookupImpl.java:369-377 | the loop computes the first candidate with the lowest key |
| Iteration.IterationYieldsStoredUsages | checklistbank-nub/src/main/java/org/gbif/nub/lookup/straight/IdLookupImpl.java:453-478 | walking all buckets in map order yields every stored usage as often as it was added, so as many usages as size |
| Iteration.LookupIterator.constructor | checklistbank-nub/src/main/java/org/gbif/nub/lookup/straight/IdLookupImpl.java:457-459 | the new iterator is to yield the buckets one after the other in map order, and none of them is empty |
| Iteration.LookupIterator.HasNext | checklistbank-nub/src/main/java/org/gbif/nub/lookup/straight/IdLookupImpl.java:462-464 | hasNext is true exactly when some usage is still to come |
| Iteration.LookupIterator.Next | checklistbank-nub/src/main/java/org/gbif/nub/lookup/straight/IdLookupImpl.java:472-477 | next yields the first usage still to come and the rest stay; with nothing left it fails (NoSuchElementException) |
| Loading.ParseUsageRow | checklistbank-nub/src/main/java/org/gbif/nub/lookup/straight/IdLookupImpl.java:151-161 | a read row gives the usage with the parsed key, the three names, the rank and status named (both known names), the kingdom toKingdom reads, no pro-parte keys and deleted exactly for "t"; the conversions throw in argument order: a null key column a NullPointerException, a non-number a NumberFormatException, then the rank, status and kingdom errors |
| Loading.UsageRowRoundTrip | checklistbank-nub/src/main/java/org/gbif/nub/lookup/straight/IdLookupImpl.java:151-161 | reading the row exported for a usage gives that usage back |
| Loading.UsageWriter.constructor | checklistbank-nub/src/main/java/org/gbif/nub/lookup/straight/IdLookupImpl.java:144-148 | a writer adds to the lookup it is given |
| Loading.UsageWriter.AddRow | checklistbank-nub/src/main/java/org/gbif/nub/lookup/straight/IdLookupImpl.java:150-163 | a row that reads is added to the lookup; a row that throws leaves the lookup as it was and reports the exception |
| Loading.RowKeys | checklistbank-nub/src/main/java/org/gbif/nub/lookup/straight/IdLookupImpl.java:191-193 | the key, parent key and pro-parte key columns read, in that order, through toInt; the row reads only when all three do, and otherwise the exception is that of the first column that throws |
| Loading.Signed | checklistbank-nub/src/main/java/org/gbif/nub/lookup/straight/IdLookupImpl.java:215-216 | the recorded key is the usage key, negated for a deleted usage, and stays an int |
| Loading.StartUsage | checklistbank-nub/src/main/java/org/gbif/nub/lookup/straight/IdLookupImpl.java:203-213 | a group usage takes key, names, rank, status, kingdom and the deleted flag from its first row and starts with no pro-parte keys; its rank and status are known names; a null key throws first, then Rank.valueOf, TaxonomicStatus.valueOf and toKingdom throw in that order |
| Loading.Put | checklistbank-nub/src/main/java/org/gbif/nub/lookup/straight/IdLookupImpl.java:215-218 | the row's parent key maps to its signed key in the group usage; a null key or parent key throws and leaves the group as it was |
| Loading.ProParteStep | checklistbank-nub/src/main/java/org/gbif/nub/lookup/straight/IdLookupImpl.java:189-219 | a row whose keys do not read changes nothing; a row starting a group (`StartsGroup`, line 196) hands over the previous usage and records its pro-parte key; any other row hands over nothing; a row that reads leaves a current usage |
| Loading.StepReads | checklistbank-nub/src/main/java/org/gbif/nub/lookup/straight/IdLookupImpl.java:189-219 | a row that reads either starts a group usage holding only its own entry, handing over the previous usage, or adds its entry to the current usage |
| Loading.Feed | checklistbank-nub/src/main/java/org/gbif/nub/lookup/straight/IdLookupImpl.java:189-219 | the specification fold: the rows fed in turn into a fresh writer, no usage handed over for no rows and at most one per row |
| Loading.Runs | checklistbank-nub/src/main/java/org/gbif/nub/lookup/straight/IdLookupImpl.java:195-196 | the rows cut at every change of pro-parte key: no run is empty, and there are runs exactly when there are rows |
| Loading.RunsCoverRows | checklistbank-nub/src/main/java/org/gbif/nub/lookup/straight/IdLookupImpl.java:195-196 | the runs, one after the other, are the rows: none lost, none reordered |
| Loading.RunsShareKey | checklistbank-nub/src/main/java/org/gbif/nub/lookup/straight/IdLookupImpl.java:195-196 | inside a run every row has the same non-null pro-parte key as the row before it |
| Loading.RunsMeetAtBoundaries | checklistbank-nub/src/main/java/org/gbif/nub/lookup/straight/IdLookupImpl.java:195-196 | consecutive runs meet where the pro-parte key changes or is null, so the runs are maximal |
| Loading.PutAll | checklistbank-nub/src/main/java/org/gbif/nub/lookup/straight/IdLookupImpl.java:218 | every parent key of the run is a key of its pro-parte map |
| Loading.PutAllKeys | checklistbank-nub/src/main/java/org/gbif/nub/lookup/straight/IdLookupImpl.java:218 | the pro-parte map holds no key but the parent keys of its rows |
| Loading.PutAllLastWins | checklistbank-nub/src/main/java/org/gbif/nub/lookup/straight/IdLookupImpl.java:218 | a parent key maps to the signed key of the last row under that parent: later rows overwrite earlier ones |
| Loading.FeedInvariant | checklistbank-nub/src/main/java/org/gbif/nub/lookup/straight/IdLookupImpl.java:189-219 | while every row reads, the writer has handed over the usages of all runs but the last, holds the usage of the last run, and remembers the last row's pro-parte key |
| Loading.LoadedIsOneUsagePerGroup | checklistbank-nub/src/main/java/org/gbif/nub/lookup/straight/IdLookupImpl.java:189-228 | when no row throws, the writer hands over exactly one usage per run, in run order, the last run included |
| Loading.ProParteUsageWriter.constructor | checklistbank-nub/src/main/java/org/gbif/nub/lookup/straight/IdLookupImpl.java:180-187 | a new writer has no usage and no last pro-parte key |
| Loading.ProParteUsageWriter.AddRow | checklistbank-nub/src/main/java/org/gbif/nub/lookup/straight/IdLookupImpl.java:189-219 | addRow performs one step of the fold: the fields take the step's writer state, the usage handed over is added to the lookup (`Flush`, lines 198-200), and the step's exception is reported |
| Loading.ProParteUsageWriter.Close | checklistbank-nub/src/main/java/org/gbif/nub/lookup/straight/IdLookupImpl.java:221-228 | close adds the usage still being built (`Flush`, lines 224-226), so the lookup gains every loaded group usage that has a key, in order |
| Loading.ProParteStepAsWritten | checklistbank-nub/src/main/java/org/gbif/nub/lookup/straight/IdLookupImpl.java:189-219 | addRow as written, reading the deleted flag from column 8: the same hand-over and pro-parte key as the corrected step; a group's first row whose column 8 is "t" throws; no usage it holds or hands over is deleted, once none was before; a row that reads with column 8 not "t" records its key unsigned |
| Loading.AsWrittenIsShiftedStep | checklistbank-nub/src/main/java/org/gbif/nub/lookup/straight/IdLookupImpl.java:194 | the step as written is the corrected step on the row whose column 9 is replaced by column 8 |
| Loading.AsWrittenIgnoresDeletedFlag | checklistbank-nub/src/main/java/org/gbif/nub/lookup/straight/IdLookupImpl.java:194 | as written, when the kingdom column reads as a number, the deleted column has no effect at all |
| Loading.FeedAsWritten | checklistbank-nub/src/main/java/org/gbif/nub/lookup/straight/IdLookupImpl.java:189-219 | the rows fed in turn into a fresh writer as written; no usage handed over for no rows |
| Loading.FeedAsWrittenIsFeed | checklistbank-nub/src/main/java/org/gbif/nub/lookup/straight/IdLookupImpl.java:189-219 | the written reader over a stream is the corrected reader over the stream with column 9 replaced by column 8 |
| Loading.LoadedAsWrittenIsOneUsagePerGroup | checklistbank-nub/src/main/java/org/gbif/nub/lookup/straight/IdLookupImpl.java:189-228 | when no row throws as written, the written reader too hands over one usage per run of rows sharing a pro-parte key, the runs being those of the rows |
| Loading.AsWrittenNeverDeleted | checklistbank-nub/src/main/java/org/gbif/nub/lookup/straight/IdLookupImpl.java:194 | as written, whatever the rows hold, no usage the reader hands over or holds is flagged deleted |
| Loading.ExampleRecordsDeletion | checklistbank-nub/src/main/java/org/gbif/nub/lookup/straight/IdLookupImpl.java:189-228 | rows 7 under parent 100 and deleted 8 under parent 200, both with pro-parte key 42, load as one usage with {100: 7, 200: -8} |
| Loading.ExampleAsWrittenLosesDeletion | checklistbank-nub/src/main/java/org/gbif/nub/lookup/straight/IdLookupImpl.java:194 | as written, the same rows give {100: 7, 200: 8}: the deleted usage keeps a positive key |
| Loading.ExampleLoadedAsWritten | checklistbank-nub/src/main/java/org/gbif/nub/lookup/straight/IdLookupImpl.java:189-228 | as written, the whole example loads without an exception as one usage with {100: 7, 200: 8} |

## Left out

- MapDB: the persistent store, its serialiser, and `close` of the lookup. The store is an in-memory map from key to sequence.
- The SQL `COPY` export run by `load(ClbConfiguration, boolean)` and the row splitting of `TabMapperBase`: database and I/O plumbing. Rows are given as sequences of columns, null for an empty column. `TabMapperBase` is not part of this model. That includes what it does with an exception thrown by `addRow`, which the model only reports.
- Logging.
- The internals of `SciNameNormalizer`, `RankUtils`, `KingdomUtils`, `AuthorComparator`, `Kingdom.byNubUsageKey`, `TaxonomicStatus.isAccepted` and `LookupUsage.getMaxKey`: that code is not part of this model, so these are uninterpreted functions.
- Store.IdLookup.Add: `counter` and `deleted` are unbounded integers. Java's 32-bit wrap-around after 2^31 additions is not modelled.
- JavaText.ToLower: only the ASCII letters A-Z are lower-cased. Locale-dependent and non-ASCII case mapping are not modelled.
- Normalization.ToInt: decimal digits are ASCII only. Integer.valueOf's acceptance of other Unicode digits is not modelled.
- The order in which the MapDB hash map yields its values is not visible. The iterator takes it as a parameter: a list of the keys, each once.
- Iteration.LookupIterator: `remove` always throws, and the model leaves it out. `spliterator` only wraps the iterator.
- Store.IdLookup.MatchAll: `usages.get(null)` for a name without a key is taken to find nothing.
- Loading.Put: `LoadError` names only the column of a null value. For a null key, the int conditional at line 216 unboxes it and throws before the `put`, and the model reports column 0. A null parent key throws in the unboxing of `put`, and the model reports column 1. A row that continues a group while no usage is current throws a NullPointerException on the missing usage, which the model also reports as column 0.
- Loading.ProParteUsageWriter.Close: a second `close` adds the current usage again, as in the source. The model states what one `close` does.
- The source filters the retrieved bucket in place with `iter.remove()`. That bucket is a deserialised copy. The model builds the sequence of survivors instead, which gives the same survivors and leaves the stored bucket unchanged.

## Findings

| source | as written | input that shows it | evidently intended | confidence | as-written member | corrected member |
|---|---|---|---|---|---|---|
| checklistbank-nub/src/main/java/org/gbif/nub/lookup/straight/IdLookupImpl.java:194 | `ProParteUsageWriter.addRow` reads the deleted flag from column 8. That column is the kingdom key, which line 211 also parses as a number. A start row whose flag is "t" therefore throws in `toKingdom`, and for the exported rows, whose column 8 is the kingdom key, no row is ever recorded as deleted (`Loading.AsWrittenIgnoresDeletedFlag`). | Two rows with pro-parte key 42: key 7, parent 100, kingdom "6", flag "f"; then key 8, parent 200, kingdom "6", flag "t". As written the group maps {100: 7, 200: 8}. | The deleted flag is read from column 9, the last column of the export. The group maps {100: 7, 200: -8}, with the deleted usage negated. | high; not executed | Loading.ExampleLoadedAsWritten | Loading.ExampleRecordsDeletion |

The rest of the model uses the corrected step, `Loading.ProParteStep`, which reads column 9.
`Loading.ProParteStepAsWritten` is the step exactly as written, and `Loading.FeedAsWritten` the whole reader as written.
`Loading.AsWrittenIgnoresDeletedFlag` proves that, whenever the kingdom column reads as a number, the written step does not depend on column 9 at all.
`Loading.AsWrittenNeverDeleted` proves that the written reader never hands over a deleted usage.
`Loading.FeedAsWrittenIsFeed` carries the one-usage-per-group result over to the written reader.
