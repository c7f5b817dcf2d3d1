/**
 * The two row readers of the bulk load: UsageWriter turns each 8-column row of the
 * plain-usage export into one usage, and ProParteUsageWriter folds the 10-column rows
 * of the pro-parte export, sorted by their pro-parte key, into one usage per group.
 * A column is null when the export wrote it empty.
 */
module Loading {
  import opened Basics
  import opened JavaText
  import opened Vocabulary
  import opened Normalization
  import opened Store

  /** One exported row, a column per entry. */
  type Row = seq<Option<string>>

  /** The deleted flag of the export: the literal "t" and nothing else. */
  predicate IsTrue(x: Option<string>)
  {
    x == Some("t")
  }

  /** The usages of `u` that are present, as a sequence. */
  function OptSeq(u: Option<Usage>): seq<Usage>
  {
    if u.Some? then [u.value] else []
  }

  // ---------------------------------------------------------------- plain usages

  /** UsageWriter.addRow, reading one row into a usage: key, canonical name, authorship,
      year, rank, status, kingdom key, deleted flag. The conversions run in that order
      and the first one that throws decides the error. */
  function ParseUsageRow(env: Env, row: Row): (r: Result<Usage, LoadError>)
    requires |row| == 8
    ensures r.Ok? ==>
      && row[0].Some? && ParseInt(row[0].value) == Ok(r.value.key) && r.value.proParteKeys == map[]
      && r.value.canonical == row[1] && r.value.authorship == row[2] && r.value.year == row[3]
      && Some(r.value.rank.name) == row[4] && r.value.rank.name in env.rankNames
      && Some(r.value.status.name) == row[5] && r.value.status.name in env.statusNames
      && ToKingdom(env, row[6]) == Ok(r.value.kingdom) && r.value.deleted == IsTrue(row[7])
    ensures row[0].None? ==> r == Err(NullValue(0))
    ensures row[0].Some? && ParseInt(row[0].value).Err? ==> r == Err(ToInt(row[0]).error) && r.error.NumberFormat?
    ensures ToInt(row[0]).Ok? && row[0].Some? ==>
      && (RankValueOf(env, row[4], 4).Err? ==> r == Err(RankValueOf(env, row[4], 4).error))
      && (RankValueOf(env, row[4], 4).Ok? && StatusValueOf(env, row[5], 5).Err? ==>
            r == Err(StatusValueOf(env, row[5], 5).error))
      && (RankValueOf(env, row[4], 4).Ok? && StatusValueOf(env, row[5], 5).Ok? && ToKingdom(env, row[6]).Err? ==>
            r == Err(ToKingdom(env, row[6]).error))
  {
    var key :- ToInt(row[0]);
    if key.None? then Err(NullValue(0)) else
    var rank :- RankValueOf(env, row[4], 4);
    var status :- StatusValueOf(env, row[5], 5);
    var kingdom :- ToKingdom(env, row[6]);
    Ok(Usage(key.value, map[], row[1], row[2], row[3], rank, status, kingdom, IsTrue(row[7])))
  }

  /** The plain-usage row the export writes for a usage: its kingdom key (null when the
      usage has none) and "t" or "f" for the deleted flag. */
  function UsageRowOf(u: Usage, kingdomKey: Option<int>): (row: Row)
    ensures |row| == 8
  {
    [ Some(IntToString(u.key)), u.canonical, u.authorship, u.year,
      Some(u.rank.name), Some(u.status.name),
      if kingdomKey.Some? then Some(IntToString(kingdomKey.value)) else None,
      Some(if u.deleted then "t" else "f") ]
  }

  /** Reading the row written for a usage gives that usage back, whenever the usage is
      one a row can describe: an int key, no pro-parte keys, known enum names and a
      kingdom key that Kingdom.byNubUsageKey maps to its kingdom. */
  lemma UsageRowRoundTrip(env: Env, u: Usage, kingdomKey: Option<int>)
    requires IsInt32(u.key) && u.proParteKeys == map[]
    requires u.rank.name in env.rankNames && u.status.name in env.statusNames
    requires kingdomKey.None? ==> u.kingdom == IncertaeSedis
    requires kingdomKey.Some? ==> IsInt32(kingdomKey.value) && env.kingdomByNubUsageKey(kingdomKey.value) == u.kingdom
    ensures ParseUsageRow(env, UsageRowOf(u, kingdomKey)) == Ok(u)
  {
    ToIntReadsWrittenInt(u.key);
    if kingdomKey.Some? {
      ToKingdomCases(env, kingdomKey.value);
    }
    assert "t" != "f";
  }

  /** UsageWriter: each row is read and added to the lookup. */
  class UsageWriter {
    const lookup: IdLookup

    constructor(lookup: IdLookup)
      ensures this.lookup == lookup
    {
      this.lookup := lookup;
    }

    /** addRow: on a readable row the usage is added; on an unreadable one the
        conversion throws and the lookup is left as it was. */
    method AddRow(row: Row) returns (err: Option<LoadError>)
      requires |row| == 8 && lookup.Valid()
      modifies lookup
      ensures lookup.Valid()
      ensures ParseUsageRow(lookup.env, row).Err? ==>
        err == Some(ParseUsageRow(lookup.env, row).error) && lookup.added == old(lookup.added)
      ensures ParseUsageRow(lookup.env, row).Ok? ==>
        err.None? && lookup.added == old(lookup.added) + Stored(lookup.env, [ParseUsageRow(lookup.env, row).value])
    {
      var r := ParseUsageRow(lookup.env, row);
      if r.Err? {
        return Some(r.error);
      }
      lookup.Add(r.value);
      err := None;
    }
  }

  // ---------------------------------------------------------------- pro-parte usages

  /** The state of ProParteUsageWriter: the group usage being built and the pro-parte
      key of the last row (both null before the first row). */
  datatype Writer = Writer(current: Option<Usage>, lastProParteKey: Option<int>)

  /** What one row does: the usage it hands to add, the writer state after it, and the
      exception it throws, if any. */
  datatype Step = Step(flushed: Option<Usage>, next: Writer, error: Option<LoadError>)

  /** A row starts a new group when there is no previous pro-parte key or its pro-parte
      key differs; Integer.equals makes a null key differ from every key. */
  predicate StartsGroup(last: Option<int>, proParteKey: Option<int>)
  {
    last.None? || last != proParteKey
  }

  /** toInt on the key, parent key and pro-parte key columns, in that order. */
  function RowKeys(row: Row): (r: Result<(Option<int>, Option<int>, Option<int>), LoadError>)
    requires |row| == 10
    ensures r.Ok? <==> ToInt(row[0]).Ok? && ToInt(row[1]).Ok? && ToInt(row[2]).Ok?
    ensures r.Ok? ==> r.value == (ToInt(row[0]).value, ToInt(row[1]).value, ToInt(row[2]).value)
    ensures ToInt(row[0]).Err? ==> r == Err(ToInt(row[0]).error)
    ensures ToInt(row[0]).Ok? && ToInt(row[1]).Err? ==> r == Err(ToInt(row[1]).error)
    ensures ToInt(row[0]).Ok? && ToInt(row[1]).Ok? && ToInt(row[2]).Err? ==> r == Err(ToInt(row[2]).error)
  {
    var key :- ToInt(row[0]);
    var parentKey :- ToInt(row[1]);
    var proParteKey :- ToInt(row[2]);
    Ok((key, parentKey, proParteKey))
  }

  /** The pro-parte key of a row, null when the column does not hold a number. */
  function ProParteKeyOf(row: Row): Option<int>
  {
    if |row| > 2 && ToInt(row[2]).Ok? then ToInt(row[2]).value else None
  }

  /** The sub-usage key recorded for a row: the usage key, negated (with 32-bit
      wrap-around, as -1 * key) when the usage is deleted. */
  function Signed(key: int, deleted: bool): (s: int)
    requires IsInt32(key)
    ensures IsInt32(s)
    ensures !deleted ==> s == key
    ensures deleted && key != MinInt ==> s == -key
  {
    if deleted then Negate32(key) else key
  }

  /** The usage a group starts with, built from its first row: key, canonical name,
      authorship, year, Rank.valueOf, TaxonomicStatus.valueOf, kingdom (column 8) and
      the deleted flag the row was read with; unboxing a null key throws first, then
      the conversions throw in that order. */
  function StartUsage(env: Env, key: Option<int>, row: Row, deleted: bool): (r: Result<Usage, LoadError>)
    requires |row| == 10
    ensures key.None? ==> r == Err(NullValue(0))
    ensures r.Ok? ==>
      && Some(r.value.key) == key && r.value.proParteKeys == map[]
      && r.value.canonical == row[3] && r.value.authorship == row[4] && r.value.year == row[5]
      && Some(r.value.rank.name) == row[6] && r.value.rank.name in env.rankNames
      && Some(r.value.status.name) == row[7] && r.value.status.name in env.statusNames
      && ToKingdom(env, row[8]) == Ok(r.value.kingdom) && r.value.deleted == deleted
    ensures key.Some? ==>
      && (RankValueOf(env, row[6], 6).Err? ==> r == Err(RankValueOf(env, row[6], 6).error))
      && (RankValueOf(env, row[6], 6).Ok? && StatusValueOf(env, row[7], 7).Err? ==>
            r == Err(StatusValueOf(env, row[7], 7).error))
      && (RankValueOf(env, row[6], 6).Ok? && StatusValueOf(env, row[7], 7).Ok? && ToKingdom(env, row[8]).Err? ==>
            r == Err(ToKingdom(env, row[8]).error))
  {
    if key.None? then Err(NullValue(0)) else
    var rank :- RankValueOf(env, row[6], 6);
    var status :- StatusValueOf(env, row[7], 7);
    var kingdom :- ToKingdom(env, row[8]);
    Ok(Usage(key.value, map[], row[3], row[4], row[5], rank, status, kingdom, deleted))
  }

  /** Records parent key -> signed key in the group usage; a null key or parent key
      cannot be unboxed and throws. */
  function Put(group: Usage, key: Option<int>, parentKey: Option<int>, deleted: bool,
               flushed: Option<Usage>, proParteKey: Option<int>): (s: Step)
    requires key.Some? ==> IsInt32(key.value)
    ensures s.flushed == flushed && s.next.lastProParteKey == proParteKey
    ensures s.error.None? <==> key.Some? && parentKey.Some?
    ensures s.error.None? ==>
      s.next.current == Some(group.(proParteKeys := group.proParteKeys[parentKey.value := Signed(key.value, deleted)]))
    ensures s.error.Some? ==> s.next.current == Some(group)
  {
    if key.None? then Step(flushed, Writer(Some(group), proParteKey), Some(NullValue(0)))
    else if parentKey.None? then Step(flushed, Writer(Some(group), proParteKey), Some(NullValue(1)))
    else Step(flushed, Writer(Some(group.(proParteKeys := group.proParteKeys[parentKey.value := Signed(key.value, deleted)])), proParteKey), None)
  }

  /**
   * ProParteUsageWriter.addRow, with the deleted flag read from column 9. A row that
   * starts a group first hands the previous group usage to add and records its
   * pro-parte key, and only then builds the new usage, so a failure there leaves the
   * previous usage current. A row that continues a group with no usage throws.
   */
  function ProParteStep(env: Env, w: Writer, row: Row): (s: Step)
    requires |row| == 10
    ensures RowKeys(row).Err? ==> s == Step(None, w, Some(RowKeys(row).error))
    ensures RowKeys(row).Ok? && StartsGroup(w.lastProParteKey, ProParteKeyOf(row)) ==>
      s.flushed == w.current && s.next.lastProParteKey == ProParteKeyOf(row)
    ensures RowKeys(row).Ok? && !StartsGroup(w.lastProParteKey, ProParteKeyOf(row)) ==>
      s.flushed.None? && s.next.lastProParteKey == w.lastProParteKey
    ensures s.error.None? ==> s.next.current.Some?
  {
    match RowKeys(row)
    case Err(e) => Step(None, w, Some(e))
    case Ok((key, parentKey, proParteKey)) =>
      var deleted := IsTrue(row[9]);
      if StartsGroup(w.lastProParteKey, proParteKey) then
        match StartUsage(env, key, row, deleted)
        case Err(e) => Step(w.current, Writer(w.current, proParteKey), Some(e))
        case Ok(group) => Put(group, key, parentKey, deleted, w.current, proParteKey)
      else if w.current.None? then Step(None, w, Some(NullValue(0)))
      else Put(w.current.value, key, parentKey, deleted, None, proParteKey)
  }

  /** The writer after a run of rows: the usages handed to add so far, the state, and
      whether every row was read without an exception. */
  datatype Fed = Fed(flushed: seq<Usage>, writer: Writer, ok: bool)

  predicate AllRows(rows: seq<Row>)
  {
    forall i :: 0 <= i < |rows| ==> |rows[i]| == 10
  }

  /** The rows fed one after the other into a fresh writer: each row hands over at most
      one usage. */
  function Feed(env: Env, rows: seq<Row>): (f: Fed)
    requires AllRows(rows)
    ensures rows == [] ==> f == Fed([], Writer(None, None), true)
    ensures |f.flushed| <= |rows|
  {
    if rows == [] then Fed([], Writer(None, None), true)
    else
      var f := Feed(env, rows[..|rows| - 1]);
      var s := ProParteStep(env, f.writer, rows[|rows| - 1]);
      Fed(f.flushed + OptSeq(s.flushed), s.next, f.ok && s.error.None?)
  }

  /** Feeding one more row is one more step. */
  lemma FeedSnoc(env: Env, rows: seq<Row>, row: Row)
    requires AllRows(rows) && |row| == 10
    ensures AllRows(rows + [row])
    ensures var f := Feed(env, rows); var s := ProParteStep(env, f.writer, row);
      Feed(env, rows + [row]) == Fed(f.flushed + OptSeq(s.flushed), s.next, f.ok && s.error.None?)
  {
    assert (rows + [row])[..|rows|] == rows;
  }

  /** Everything the writer hands to add once its close adds the last group. */
  function Loaded(env: Env, rows: seq<Row>): seq<Usage>
    requires AllRows(rows)
  {
    Feed(env, rows).flushed + OptSeq(Feed(env, rows).writer.current)
  }

  /** Where a group begins, for rows grouped by `key`: at the first row and wherever
      StartsGroup holds between a row and the one before it. */
  predicate Boundary<T>(rows: seq<T>, key: T -> Option<int>, i: int)
    requires 0 <= i < |rows|
  {
    i == 0 || StartsGroup(key(rows[i - 1]), key(rows[i]))
  }

  /** The rows cut into groups at every boundary. */
  function Runs<T>(rows: seq<T>, key: T -> Option<int>): (runs: seq<seq<T>>)
    ensures |runs| <= |rows| && (runs == [] <==> rows == [])
    ensures forall r :: 0 <= r < |runs| ==> runs[r] != []
    ensures rows != [] ==> var last := runs[|runs| - 1]; last[|last| - 1] == rows[|rows| - 1]
  {
    if rows == [] then []
    else
      var init := rows[..|rows| - 1];
      var runs := Runs(init, key);
      if !Boundary(rows, key, |rows| - 1) then runs[..|runs| - 1] + [runs[|runs| - 1] + [rows[|rows| - 1]]]
      else runs + [[rows[|rows| - 1]]]
  }

  /** A row every conversion of which succeeds, with a key and a parent key. */
  predicate RowOk(row: Row)
  {
    && |row| == 10 && RowKeys(row).Ok?
    && RowKeys(row).value.0.Some? && RowKeys(row).value.1.Some?
  }

  function RowKey(row: Row): (k: int)
    requires RowOk(row)
    ensures IsInt32(k)
  {
    RowKeys(row).value.0.value
  }

  function ParentKey(row: Row): int
    requires RowOk(row)
  {
    RowKeys(row).value.1.value
  }

  /** The entry a row records in its group's pro-parte map. */
  function SignedKey(row: Row): int
    requires RowOk(row)
  {
    Signed(RowKey(row), IsTrue(row[9]))
  }

  /** The pro-parte map of a group: parent key -> signed key, row by row. */
  function PutAll(run: seq<Row>): (m: map<int, int>)
    requires forall i :: 0 <= i < |run| ==> RowOk(run[i])
    ensures forall i :: 0 <= i < |run| ==> ParentKey(run[i]) in m
  {
    if run == [] then map[]
    else
      var last := run[|run| - 1];
      PutAll(run[..|run| - 1])[ParentKey(last) := SignedKey(last)]
  }

  /** A group whose rows all read and whose first row builds a usage. */
  predicate GroupOk(env: Env, run: seq<Row>)
  {
    && run != [] && (forall i :: 0 <= i < |run| ==> RowOk(run[i]))
    && StartUsage(env, RowKeys(run[0]).value.0, run[0], IsTrue(run[0][9])).Ok?
  }

  /** The usage of a group: its first row's usage, with the pro-parte map of all its rows. */
  function GroupOf(env: Env, run: seq<Row>): Usage
    requires GroupOk(env, run)
  {
    StartUsage(env, RowKeys(run[0]).value.0, run[0], IsTrue(run[0][9])).value.(proParteKeys := PutAll(run))
  }

  function GroupsOf(env: Env, runs: seq<seq<Row>>): (us: seq<Usage>)
    requires forall i :: 0 <= i < |runs| ==> GroupOk(env, runs[i])
    ensures |us| == |runs|
  {
    seq(|runs|, i requires 0 <= i < |runs| => GroupOf(env, runs[i]))
  }

  // ---------------------------------------------------------------- properties of the grouping

  /** Cutting at boundaries loses and reorders no row. */
  lemma {:induction false} RunsCoverRows<T>(rows: seq<T>, key: T -> Option<int>)
    ensures Flatten(Runs(rows, key)) == rows
  {
    if rows != [] {
      var init := rows[..|rows| - 1];
      var row := rows[|rows| - 1];
      assert rows == init + [row];
      RunsCoverRows(init, key);
      var runs0 := Runs(init, key);
      if !Boundary(rows, key, |rows| - 1) {
        var front := runs0[..|runs0| - 1];
        var last := runs0[|runs0| - 1];
        assert runs0 == front + [last];
        FlattenSnoc(front, last);
        FlattenSnoc(front, last + [row]);
        assert Runs(rows, key) == front + [last + [row]];
        assert Flatten(front) + (last + [row]) == (Flatten(front) + last) + [row];
      } else {
        FlattenSnoc(runs0, [row]);
        assert Runs(rows, key) == runs0 + [[row]];
      }
    }
  }

  /** One more row opens a new run exactly when StartsGroup holds between the key
      remembered for the last row and its own key; otherwise it extends the last run. */
  lemma RunsSnoc<T>(init: seq<T>, row: T, key: T -> Option<int>, last: Option<int>)
    requires init != [] && last == key(init[|init| - 1])
    ensures var runs0 := Runs(init, key);
      && (StartsGroup(last, key(row)) ==> Runs(init + [row], key) == runs0 + [[row]])
      && (!StartsGroup(last, key(row)) ==> Runs(init + [row], key) == runs0[..|runs0| - 1] + [runs0[|runs0| - 1] + [row]])
  {
    var rows := init + [row];
    assert rows[..|rows| - 1] == init;
    assert rows[|rows| - 2] == init[|init| - 1];
  }

  /** Inside a run every row has the non-null key of the row before it. */
  predicate SameKeyInside<T>(run: seq<T>, key: T -> Option<int>)
  {
    forall j :: 0 <= j < |run| - 1 ==> key(run[j]).Some? && key(run[j + 1]) == key(run[j])
  }

  /** The last row of one run and the first of the next are a boundary. */
  predicate MeetAt<T>(prev: seq<T>, next: seq<T>, key: T -> Option<int>)
    requires prev != [] && next != []
  {
    StartsGroup(key(prev[|prev| - 1]), key(next[0]))
  }

  lemma SameKeySnoc<T>(run: seq<T>, row: T, key: T -> Option<int>)
    requires run != [] && SameKeyInside(run, key)
    requires !StartsGroup(key(run[|run| - 1]), key(row))
    ensures SameKeyInside(run + [row], key)
  {
    var longer := run + [row];
    forall j | 0 <= j < |longer| - 1
      ensures key(longer[j]).Some? && key(longer[j + 1]) == key(longer[j])
    {
      if j + 1 < |run| {
        assert longer[j] == run[j] && longer[j + 1] == run[j + 1];
      }
    }
  }

  /** Inside a group every row has the non-null pro-parte key of the row before it. */
  lemma {:induction false} RunsShareKey<T>(rows: seq<T>, key: T -> Option<int>)
    ensures forall r :: 0 <= r < |Runs(rows, key)| ==> SameKeyInside(Runs(rows, key)[r], key)
  {
    if rows != [] {
      var init := rows[..|rows| - 1];
      var row := rows[|rows| - 1];
      RunsShareKey(init, key);
      var runs0 := Runs(init, key);
      var runs := Runs(rows, key);
      var n := |runs0|;
      if !Boundary(rows, key, |rows| - 1) {
        var lastRun := runs0[n - 1];
        assert runs == runs0[..n - 1] + [lastRun + [row]];
        assert lastRun[|lastRun| - 1] == init[|init| - 1] == rows[|rows| - 2];
        SameKeySnoc(lastRun, row, key);
        forall r | 0 <= r < |runs|
          ensures SameKeyInside(runs[r], key)
        {
          if r < n - 1 {
            assert runs[r] == runs0[r];
          }
        }
      } else {
        assert runs == runs0 + [[row]];
        forall r | 0 <= r < |runs|
          ensures SameKeyInside(runs[r], key)
        {
          if r < n {
            assert runs[r] == runs0[r];
          }
        }
      }
    }
  }

  /** Consecutive runs meet at a boundary. */
  predicate RunsMeet<T>(runs: seq<seq<T>>, key: T -> Option<int>)
    requires forall r :: 0 <= r < |runs| ==> runs[r] != []
  {
    forall r :: 0 < r < |runs| ==> MeetAt(runs[r - 1], runs[r], key)
  }

  /** Extending the last run keeps every meeting point. */
  lemma MeetAfterExtend<T>(runs0: seq<seq<T>>, row: T, key: T -> Option<int>)
    requires runs0 != [] && (forall r :: 0 <= r < |runs0| ==> runs0[r] != []) && RunsMeet(runs0, key)
    ensures var runs := runs0[..|runs0| - 1] + [runs0[|runs0| - 1] + [row]];
      (forall r :: 0 <= r < |runs| ==> runs[r] != []) && RunsMeet(runs, key)
  {
    var n := |runs0|;
    var runs := runs0[..n - 1] + [runs0[n - 1] + [row]];
    assert forall r :: 0 <= r < n - 1 ==> runs[r] == runs0[r];
    forall r | 0 < r < |runs|
      ensures MeetAt(runs[r - 1], runs[r], key)
    {
      assert runs[r - 1] == runs0[r - 1];
      if r == n - 1 {
        assert runs[r][0] == runs0[r][0];
        assert MeetAt(runs0[r - 1], runs0[r], key);
      }
    }
  }

  /** Opening a run at a boundary adds one meeting point. */
  lemma MeetAfterOpen<T>(runs0: seq<seq<T>>, row: T, key: T -> Option<int>)
    requires runs0 != [] && (forall r :: 0 <= r < |runs0| ==> runs0[r] != []) && RunsMeet(runs0, key)
    requires var last := runs0[|runs0| - 1]; StartsGroup(key(last[|last| - 1]), key(row))
    ensures var runs := runs0 + [[row]];
      (forall r :: 0 <= r < |runs| ==> runs[r] != []) && RunsMeet(runs, key)
  {
    var runs := runs0 + [[row]];
    assert forall r :: 0 <= r < |runs0| ==> runs[r] == runs0[r];
    forall r | 0 < r < |runs|
      ensures MeetAt(runs[r - 1], runs[r], key)
    {
      if r < |runs0| {
        assert MeetAt(runs0[r - 1], runs0[r], key);
      }
    }
  }

  /** Consecutive groups meet where StartsGroup holds. */
  lemma {:induction false} RunsMeetAtBoundaries<T>(rows: seq<T>, key: T -> Option<int>)
    ensures RunsMeet(Runs(rows, key), key)
  {
    if |rows| == 1 {
      assert rows[..0] == [];
    } else if rows != [] {
      var init := rows[..|rows| - 1];
      var row := rows[|rows| - 1];
      assert rows == init + [row];
      RunsMeetAtBoundaries(init, key);
      MeetStep(init, row, key);
    }
  }

  lemma MeetStep<T>(init: seq<T>, row: T, key: T -> Option<int>)
    requires init != [] && RunsMeet(Runs(init, key), key)
    ensures RunsMeet(Runs(init + [row], key), key)
  {
    var last := key(init[|init| - 1]);
    RunsSnoc(init, row, key, last);
    if StartsGroup(last, key(row)) {
      MeetAfterOpen(Runs(init, key), row, key);
    } else {
      MeetAfterExtend(Runs(init, key), row, key);
    }
  }

  /** The pro-parte map of a group holds no parent key but those of its rows. */
  lemma {:induction false} PutAllKeys(run: seq<Row>)
    requires forall i :: 0 <= i < |run| ==> RowOk(run[i])
    ensures forall p :: p in PutAll(run) ==> exists i :: 0 <= i < |run| && ParentKey(run[i]) == p
  {
    if run != [] {
      var init := run[..|run| - 1];
      PutAllKeys(init);
      forall p | p in PutAll(run)
        ensures exists i :: 0 <= i < |run| && ParentKey(run[i]) == p
      {
        if p != ParentKey(run[|run| - 1]) {
          assert p in PutAll(init);
          var i :| 0 <= i < |init| && ParentKey(init[i]) == p;
          assert run[i] == init[i];
        }
      }
    }
  }

  /** A parent key maps to the signed key of the last row under that parent. */
  lemma {:induction false} PutAllLastWins(run: seq<Row>, i: int)
    requires forall j :: 0 <= j < |run| ==> RowOk(run[j])
    requires 0 <= i < |run| && forall j :: i < j < |run| ==> ParentKey(run[j]) != ParentKey(run[i])
    ensures PutAll(run)[ParentKey(run[i])] == SignedKey(run[i])
  {
    var init := run[..|run| - 1];
    if i < |init| {
      assert init[i] == run[i];
      assert forall j :: i < j < |init| ==> init[j] == run[j];
      PutAllLastWins(init, i);
    }
  }

  /** A row that reads: a group's first row builds the group usage with the one entry of
      that row, hands over the previous usage and records its pro-parte key; any other
      row adds its entry to the current usage. */
  lemma StepReads(env: Env, w: Writer, row: Row)
    requires |row| == 10 && ProParteStep(env, w, row).error.None?
    ensures RowOk(row) && ProParteKeyOf(row) == RowKeys(row).value.2
    ensures var s := ProParteStep(env, w, row);
      StartsGroup(w.lastProParteKey, ProParteKeyOf(row)) ==>
        var started := StartUsage(env, RowKeys(row).value.0, row, IsTrue(row[9]));
        && started.Ok?
        && s == Step(w.current, Writer(Some(started.value.(proParteKeys := map[ParentKey(row) := SignedKey(row)])), ProParteKeyOf(row)), None)
    ensures var s := ProParteStep(env, w, row);
      !StartsGroup(w.lastProParteKey, ProParteKeyOf(row)) ==>
        && w.current.Some?
        && s == Step(None, Writer(Some(w.current.value.(proParteKeys := w.current.value.proParteKeys[ParentKey(row) := SignedKey(row)])), w.lastProParteKey), None)
  {
  }

  lemma GroupOfSingle(env: Env, row: Row)
    requires RowOk(row) && StartUsage(env, RowKeys(row).value.0, row, IsTrue(row[9])).Ok?
    ensures GroupOk(env, [row])
    ensures GroupOf(env, [row]) == StartUsage(env, RowKeys(row).value.0, row, IsTrue(row[9])).value.(proParteKeys := map[ParentKey(row) := SignedKey(row)])
  {
    var single: seq<Row> := [row];
    assert single[..0] == [];
    assert PutAll(single) == map[][ParentKey(row) := SignedKey(row)];
    assert map[][ParentKey(row) := SignedKey(row)] == map[ParentKey(row) := SignedKey(row)];
  }

  lemma GroupOfSnoc(env: Env, run: seq<Row>, row: Row)
    requires GroupOk(env, run) && RowOk(row)
    ensures GroupOk(env, run + [row])
    ensures GroupOf(env, run + [row]) == GroupOf(env, run).(proParteKeys := GroupOf(env, run).proParteKeys[ParentKey(row) := SignedKey(row)])
  {
    assert (run + [row])[..|run|] == run;
    assert (run + [row])[0] == run[0];
  }

  lemma GroupsOfSnoc(env: Env, runs: seq<seq<Row>>, run: seq<Row>)
    requires forall i :: 0 <= i < |runs| ==> GroupOk(env, runs[i])
    requires GroupOk(env, run)
    ensures forall i :: 0 <= i < |runs + [run]| ==> GroupOk(env, (runs + [run])[i])
    ensures GroupsOf(env, runs + [run]) == GroupsOf(env, runs) + [GroupOf(env, run)]
  {
    assert forall i :: 0 <= i < |runs| ==> (runs + [run])[i] == runs[i];
  }

  /** A row that starts a group: the last group so far is handed over and the new
      group holds that row alone. */
  lemma StartCase(env: Env, runs0: seq<seq<Row>>, row: Row, w: Writer)
    requires runs0 != [] && forall r :: 0 <= r < |runs0| ==> GroupOk(env, runs0[r])
    requires |row| == 10 && ProParteStep(env, w, row).error.None?
    requires StartsGroup(w.lastProParteKey, ProParteKeyOf(row))
    requires w.current == Some(GroupOf(env, runs0[|runs0| - 1]))
    ensures forall r :: 0 <= r < |runs0 + [[row]]| ==> GroupOk(env, (runs0 + [[row]])[r])
    ensures var s := ProParteStep(env, w, row);
      && OptSeq(s.flushed) == [GroupOf(env, runs0[|runs0| - 1])]
      && s.next == Writer(Some(GroupOf(env, [row])), ProParteKeyOf(row))
  {
    StepReads(env, w, row);
    GroupOfSingle(env, row);
    GroupsOfSnoc(env, runs0, [row]);
  }

  /** A row that continues a group: nothing is handed over and the last group gains
      the row. */
  lemma ContinueCase(env: Env, runs0: seq<seq<Row>>, row: Row, w: Writer)
    requires runs0 != [] && forall r :: 0 <= r < |runs0| ==> GroupOk(env, runs0[r])
    requires |row| == 10 && ProParteStep(env, w, row).error.None?
    requires !StartsGroup(w.lastProParteKey, ProParteKeyOf(row))
    requires w.current == Some(GroupOf(env, runs0[|runs0| - 1]))
    ensures var runs := runs0[..|runs0| - 1] + [runs0[|runs0| - 1] + [row]];
      && (forall r :: 0 <= r < |runs| ==> GroupOk(env, runs[r]))
      && runs[..|runs| - 1] == runs0[..|runs0| - 1]
      && var s := ProParteStep(env, w, row);
         s.flushed.None? && s.next == Writer(Some(GroupOf(env, runs[|runs| - 1])), ProParteKeyOf(row))
  {
    var n := |runs0|;
    StepReads(env, w, row);
    GroupOfSnoc(env, runs0[n - 1], row);
    GroupsOfSnoc(env, runs0[..n - 1], runs0[n - 1] + [row]);
    var runs := runs0[..n - 1] + [runs0[n - 1] + [row]];
    assert runs[..|runs| - 1] == runs0[..n - 1];
  }

  /** The groups before the last, then the last one, are all the groups. */
  lemma HandOverLast(env: Env, runs: seq<seq<Row>>)
    requires runs != [] && forall r :: 0 <= r < |runs| ==> GroupOk(env, runs[r])
    ensures GroupsOf(env, runs[..|runs| - 1]) + [GroupOf(env, runs[|runs| - 1])] == GroupsOf(env, runs)
  {
    var n := |runs|;
    var before := GroupsOf(env, runs[..n - 1]);
    var all := GroupsOf(env, runs);
    forall i | 0 <= i < n
      ensures (before + [GroupOf(env, runs[n - 1])])[i] == all[i]
    {
      if i < n - 1 {
        assert runs[..n - 1][i] == runs[i];
      }
    }
  }

  /** While every row reads, the writer has handed over the usages of all groups but
      the last, holds the usage of the last group so far, and remembers the pro-parte
      key of the last row. */
  ghost predicate FedAsGroups(env: Env, rows: seq<Row>)
    requires AllRows(rows) && rows != []
  {
    var runs := Runs(rows, ProParteKeyOf);
    && (forall r :: 0 <= r < |runs| ==> GroupOk(env, runs[r]))
    && Feed(env, rows).flushed == GroupsOf(env, runs[..|runs| - 1])
    && Feed(env, rows).writer == Writer(Some(GroupOf(env, runs[|runs| - 1])), ProParteKeyOf(rows[|rows| - 1]))
  }

  /** The first row that reads opens the first group. */
  lemma FeedFirst(env: Env, row: Row)
    requires |row| == 10 && ProParteStep(env, Writer(None, None), row).error.None?
    ensures AllRows([row]) && FedAsGroups(env, [row])
  {
    var single: seq<Row> := [row];
    var w := Writer(None, None);
    FeedSnoc(env, [], row);
    assert [] + [row] == single;
    StepReads(env, w, row);
    GroupOfSingle(env, row);
    var s := ProParteStep(env, w, row);
    assert s.flushed.None? && OptSeq(s.flushed) == [];
    assert Feed(env, single).flushed == [];
    assert single[..0] == [];
    assert Boundary(single, ProParteKeyOf, 0);
    var runs := Runs(single, ProParteKeyOf);
    assert runs == [[row]];
    assert GroupsOf(env, runs[..0]) == [];
  }

  /** One more row that reads keeps the writer in step with the groups. */
  lemma FeedNext(env: Env, init: seq<Row>, row: Row)
    requires AllRows(init) && init != [] && |row| == 10 && FedAsGroups(env, init)
    requires ProParteStep(env, Feed(env, init).writer, row).error.None?
    ensures AllRows(init + [row]) && FedAsGroups(env, init + [row])
  {
    if StartsGroup(Feed(env, init).writer.lastProParteKey, ProParteKeyOf(row)) {
      FeedOpens(env, init, row);
    } else {
      FeedExtends(env, init, row);
    }
  }

  /** A row that opens a group hands over the last group of `init`. */
  lemma FeedOpens(env: Env, init: seq<Row>, row: Row)
    requires AllRows(init) && init != [] && |row| == 10 && FedAsGroups(env, init)
    requires ProParteStep(env, Feed(env, init).writer, row).error.None?
    requires StartsGroup(Feed(env, init).writer.lastProParteKey, ProParteKeyOf(row))
    ensures AllRows(init + [row]) && FedAsGroups(env, init + [row])
  {
    var f := Feed(env, init);
    FeedSnoc(env, init, row);
    var runs0 := Runs(init, ProParteKeyOf);
    RunsSnoc(init, row, ProParteKeyOf, f.writer.lastProParteKey);
    StartCase(env, runs0, row, f.writer);
    HandOverLast(env, runs0);
    assert (runs0 + [[row]])[..|runs0|] == runs0;
  }

  /** A row that continues a group adds to the last group of `init`. */
  lemma FeedExtends(env: Env, init: seq<Row>, row: Row)
    requires AllRows(init) && init != [] && |row| == 10 && FedAsGroups(env, init)
    requires ProParteStep(env, Feed(env, init).writer, row).error.None?
    requires !StartsGroup(Feed(env, init).writer.lastProParteKey, ProParteKeyOf(row))
    ensures AllRows(init + [row]) && FedAsGroups(env, init + [row])
  {
    var f := Feed(env, init);
    FeedSnoc(env, init, row);
    var runs0 := Runs(init, ProParteKeyOf);
    RunsSnoc(init, row, ProParteKeyOf, f.writer.lastProParteKey);
    ContinueCase(env, runs0, row, f.writer);
    assert f.flushed + [] == f.flushed;
  }

  lemma {:induction false} FeedInvariant(env: Env, rows: seq<Row>)
    requires AllRows(rows) && Feed(env, rows).ok && rows != []
    ensures FedAsGroups(env, rows)
  {
    var init := rows[..|rows| - 1];
    var row := rows[|rows| - 1];
    assert init + [row] == rows;
    FeedSnoc(env, init, row);
    if init == [] {
      FeedFirst(env, row);
    } else {
      FeedInvariant(env, init);
      FeedNext(env, init, row);
    }
  }

  /** The pro-parte load, when no row throws: one usage per group of consecutive rows
      sharing a pro-parte key, in the order of the groups, the last one included. */
  lemma LoadedIsOneUsagePerGroup(env: Env, rows: seq<Row>)
    requires AllRows(rows) && Feed(env, rows).ok
    ensures forall r :: 0 <= r < |Runs(rows, ProParteKeyOf)| ==> GroupOk(env, Runs(rows, ProParteKeyOf)[r])
    ensures Loaded(env, rows) == GroupsOf(env, Runs(rows, ProParteKeyOf))
    ensures |Loaded(env, rows)| == |Runs(rows, ProParteKeyOf)|
  {
    if rows != [] {
      FeedInvariant(env, rows);
      HandOverLast(env, Runs(rows, ProParteKeyOf));
    }
  }

  // ---------------------------------------------------------------- the source as written

  /**
   * ProParteUsageWriter.addRow as written: the deleted flag is read from column 8, the
   * kingdom key, rather than from column 9, the deleted flag of the export. A group's
   * first row must read column 8 as a kingdom key, so it is never "t": no group usage
   * is deleted, and every row whose kingdom column is not "t" records its key unsigned.
   */
  function ProParteStepAsWritten(env: Env, w: Writer, row: Row): (s: Step)
    requires |row| == 10
    ensures RowKeys(row).Err? ==> s == Step(None, w, Some(RowKeys(row).error))
    ensures RowKeys(row).Ok? && StartsGroup(w.lastProParteKey, ProParteKeyOf(row)) ==>
      s.flushed == w.current && s.next.lastProParteKey == ProParteKeyOf(row)
    ensures RowKeys(row).Ok? && !StartsGroup(w.lastProParteKey, ProParteKeyOf(row)) ==>
      s.flushed.None? && s.next.lastProParteKey == w.lastProParteKey
    ensures RowKeys(row).Ok? && StartsGroup(w.lastProParteKey, ProParteKeyOf(row)) && IsTrue(row[8]) ==>
      s.error.Some?
    ensures s.error.None? ==> s.next.current.Some? && RowKeys(row).Ok?
    ensures s.error.None? && !IsTrue(row[8]) ==>
      && RowKeys(row).value.0.Some? && RowKeys(row).value.1.Some?
      && RowKeys(row).value.1.value in s.next.current.value.proParteKeys
      && s.next.current.value.proParteKeys[RowKeys(row).value.1.value] == RowKeys(row).value.0.value
    ensures (w.current.Some? ==> !w.current.value.deleted) ==>
      && (s.flushed.Some? ==> !s.flushed.value.deleted)
      && (s.next.current.Some? ==> !s.next.current.value.deleted)
  {
    TrueIsNotAnInt();
    match RowKeys(row)
    case Err(e) => Step(None, w, Some(e))
    case Ok((key, parentKey, proParteKey)) =>
      var deleted := IsTrue(row[8]);
      if StartsGroup(w.lastProParteKey, proParteKey) then
        match StartUsage(env, key, row, deleted)
        case Err(e) => Step(w.current, Writer(w.current, proParteKey), Some(e))
        case Ok(group) => Put(group, key, parentKey, deleted, w.current, proParteKey)
      else if w.current.None? then Step(None, w, Some(NullValue(0)))
      else Put(w.current.value, key, parentKey, deleted, None, proParteKey)
  }

  /** The step as written is the corrected step on a row whose deleted column holds
      the kingdom column. */
  lemma AsWrittenIsShiftedStep(env: Env, w: Writer, row: Row)
    requires |row| == 10
    ensures ProParteStepAsWritten(env, w, row) == ProParteStep(env, w, row[9 := row[8]])
  {
    var shifted := row[9 := row[8]];
    assert shifted[..9] == row[..9];
    assert RowKeys(shifted) == RowKeys(row);
    assert ProParteKeyOf(shifted) == ProParteKeyOf(row);
    if RowKeys(row).Ok? {
      var key := RowKeys(row).value.0;
      assert StartUsage(env, key, shifted, IsTrue(row[8])) == StartUsage(env, key, row, IsTrue(row[8]));
    }
  }

  /** As written, a row whose kingdom column reads as a kingdom key is never taken to be
      deleted, whatever its deleted column says: its key is recorded unsigned. */
  lemma AsWrittenIgnoresDeletedFlag(env: Env, w: Writer, row: Row)
    requires |row| == 10 && ToInt(row[8]).Ok?
    ensures ProParteStepAsWritten(env, w, row) == ProParteStep(env, w, row[9 := None])
  {
    AsWrittenIsShiftedStep(env, w, row);
    TrueIsNotAnInt();
    assert !IsTrue(row[8]);
    var a, b := row[9 := row[8]], row[9 := None];
    assert a[..9] == b[..9];
    assert RowKeys(a) == RowKeys(b);
    assert ProParteKeyOf(a) == ProParteKeyOf(b);
    if RowKeys(a).Ok? {
      var key := RowKeys(a).value.0;
      assert StartUsage(env, key, a, false) == StartUsage(env, key, b, false);
    }
  }

  /** The rows with column 9 replaced by column 8: what the written reader sees as deleted flags. */
  function AsWrittenRows(rows: seq<Row>): (shifted: seq<Row>)
    requires AllRows(rows)
    ensures |shifted| == |rows| && AllRows(shifted)
    ensures forall i :: 0 <= i < |rows| ==> shifted[i] == rows[i][9 := rows[i][8]]
  {
    seq(|rows|, i requires 0 <= i < |rows| => rows[i][9 := rows[i][8]])
  }

  /** The rows fed one after the other into a fresh writer as written. */
  function FeedAsWritten(env: Env, rows: seq<Row>): (f: Fed)
    requires AllRows(rows)
    ensures rows == [] ==> f == Fed([], Writer(None, None), true)
  {
    if rows == [] then Fed([], Writer(None, None), true)
    else
      var f := FeedAsWritten(env, rows[..|rows| - 1]);
      var s := ProParteStepAsWritten(env, f.writer, rows[|rows| - 1]);
      Fed(f.flushed + OptSeq(s.flushed), s.next, f.ok && s.error.None?)
  }

  /** Everything the written reader hands to add once its close adds the last group. */
  function LoadedAsWritten(env: Env, rows: seq<Row>): seq<Usage>
    requires AllRows(rows)
  {
    FeedAsWritten(env, rows).flushed + OptSeq(FeedAsWritten(env, rows).writer.current)
  }

  /** The written reader over a stream is the corrected one over the shifted stream. */
  lemma {:induction false} FeedAsWrittenIsFeed(env: Env, rows: seq<Row>)
    requires AllRows(rows)
    ensures FeedAsWritten(env, rows) == Feed(env, AsWrittenRows(rows))
  {
    if rows != [] {
      var init := rows[..|rows| - 1];
      FeedAsWrittenIsFeed(env, init);
      assert AsWrittenRows(rows)[..|rows| - 1] == AsWrittenRows(init);
      AsWrittenIsShiftedStep(env, FeedAsWritten(env, init).writer, rows[|rows| - 1]);
    }
  }

  /** When no row throws, the written reader too hands over one usage per run of the
      shifted rows, whose pro-parte keys are those of the rows. */
  lemma LoadedAsWrittenIsOneUsagePerGroup(env: Env, rows: seq<Row>)
    requires AllRows(rows) && FeedAsWritten(env, rows).ok
    ensures forall i :: 0 <= i < |rows| ==> ProParteKeyOf(AsWrittenRows(rows)[i]) == ProParteKeyOf(rows[i])
    ensures var runs := Runs(AsWrittenRows(rows), ProParteKeyOf);
      && (forall r :: 0 <= r < |runs| ==> GroupOk(env, runs[r]))
      && LoadedAsWritten(env, rows) == GroupsOf(env, runs)
  {
    FeedAsWrittenIsFeed(env, rows);
    LoadedIsOneUsagePerGroup(env, AsWrittenRows(rows));
    forall i | 0 <= i < |rows|
      ensures ProParteKeyOf(AsWrittenRows(rows)[i]) == ProParteKeyOf(rows[i])
    {
      assert AsWrittenRows(rows)[i][2] == rows[i][2];
    }
  }

  /** As written, whatever the rows hold, no usage the reader hands over is flagged deleted. */
  lemma {:induction false} AsWrittenNeverDeleted(env: Env, rows: seq<Row>)
    requires AllRows(rows)
    ensures forall i :: 0 <= i < |LoadedAsWritten(env, rows)| ==> !LoadedAsWritten(env, rows)[i].deleted
    ensures var c := FeedAsWritten(env, rows).writer.current; c.Some? ==> !c.value.deleted
  {
    if rows != [] {
      var init := rows[..|rows| - 1];
      AsWrittenNeverDeleted(env, init);
      var f := FeedAsWritten(env, init);
      var s := ProParteStepAsWritten(env, f.writer, rows[|rows| - 1]);
      assert FeedAsWritten(env, rows).flushed == f.flushed + OptSeq(s.flushed);
      assert forall i :: 0 <= i < |f.flushed| ==> !f.flushed[i].deleted by {
        forall i | 0 <= i < |f.flushed| ensures !f.flushed[i].deleted {
          assert LoadedAsWritten(env, init)[i] == f.flushed[i];
        }
      }
    }
  }

  /** Two rows of group 42: usage 7 under parent 100, live, then usage 8 under parent
      200, deleted, both in kingdom 6. */
  function ExampleRows(): (rows: seq<Row>)
    ensures AllRows(rows) && |rows| == 2
  {
    [ [Some("7"), Some("100"), Some("42"), Some("Abies alba"), None, None, Some("SPECIES"), Some("SYNONYM"), Some("6"), Some("f")],
      [Some("8"), Some("200"), Some("42"), Some("Abies alba"), None, None, Some("SPECIES"), Some("SYNONYM"), Some("6"), Some("t")] ]
  }

  /** The number columns of the example rows. */
  lemma ExampleNumbers()
    ensures RowKeys(ExampleRows()[0]) == Ok((Some(7), Some(100), Some(42)))
    ensures RowKeys(ExampleRows()[1]) == Ok((Some(8), Some(200), Some(42)))
    ensures ToInt(Some("6")) == Ok(Some(6))
  {
    ExampleParses();
  }

  lemma ExampleParses()
    ensures ParseInt("100") == Ok(100) && ParseInt("200") == Ok(200) && ParseInt("42") == Ok(42)
    ensures ParseInt("7") == Ok(7) && ParseInt("8") == Ok(8) && ParseInt("6") == Ok(6)
  {
    assert "100"[..2] == "10" && "10"[..1] == "1" && "1"[..0] == "";
    assert "200"[..2] == "20" && "20"[..1] == "2" && "2"[..0] == "";
    assert "42"[..1] == "4" && "4"[..0] == "";
    assert "7"[..0] == "" && "8"[..0] == "" && "6"[..0] == "";
  }

  /** The first example row opens the group with the entry {100: 7}. */
  lemma ExampleFirstRow(env: Env)
    requires "SPECIES" in env.rankNames && "SYNONYM" in env.statusNames
    ensures var s0 := ProParteStep(env, Writer(None, None), ExampleRows()[0]);
      && s0.error.None? && s0.flushed.None? && s0.next.lastProParteKey == Some(42)
      && s0.next.current.Some? && s0.next.current.value.proParteKeys == map[100 := 7]
      && Feed(env, ExampleRows()[..1]) == Fed([], s0.next, true)
  {
    var rows := ExampleRows();
    ExampleNumbers();
    var first: seq<Row> := rows[..1];
    assert first[..0] == [];
    assert Negate32(7) == -7;
  }

  /** Read with the flag from column 9, the example is one group usage recording
      {100: 7, 200: -8}. */
  lemma ExampleRecordsDeletion(env: Env)
    requires "SPECIES" in env.rankNames && "SYNONYM" in env.statusNames
    ensures Feed(env, ExampleRows()).ok
    ensures |Loaded(env, ExampleRows())| == 1
    ensures Loaded(env, ExampleRows())[0].proParteKeys == map[100 := 7, 200 := -8]
  {
    var rows := ExampleRows();
    var first: seq<Row> := rows[..1];
    assert rows[..|rows| - 1] == first;
    ExampleFirstRow(env);
    var s0 := ProParteStep(env, Writer(None, None), rows[0]);
    ExampleNumbers();
    var s1 := ProParteStep(env, s0.next, rows[1]);
    assert Negate32(8) == -8;
    assert s1.error.None? && s1.flushed.None?;
    assert s1.next.current.Some? && s1.next.current.value.proParteKeys == map[100 := 7][200 := -8];
    assert Feed(env, rows) == Fed([], s1.next, true);
  }

  /** As written, the same rows record {100: 7, 200: 8}: the deleted usage 8 keeps its sign. */
  lemma ExampleAsWrittenLosesDeletion(env: Env)
    requires "SPECIES" in env.rankNames && "SYNONYM" in env.statusNames
    ensures var s0 := ProParteStepAsWritten(env, Writer(None, None), ExampleRows()[0]);
      var s1 := ProParteStepAsWritten(env, s0.next, ExampleRows()[1]);
      && s0.error.None? && s1.error.None? && s1.flushed.None?
      && s1.next.current.Some? && s1.next.current.value.proParteKeys == map[100 := 7, 200 := 8]
  {
    ExampleNumbers();
    var rows := ExampleRows();
    assert RowKeys(rows[0][9 := rows[0][8]]) == RowKeys(rows[0]);
    assert RowKeys(rows[1][9 := rows[1][8]]) == RowKeys(rows[1]);
  }

  /** As written, the whole example is loaded as one group usage recording {100: 7, 200: 8}. */
  lemma ExampleLoadedAsWritten(env: Env)
    requires "SPECIES" in env.rankNames && "SYNONYM" in env.statusNames
    ensures FeedAsWritten(env, ExampleRows()).ok
    ensures |LoadedAsWritten(env, ExampleRows())| == 1
    ensures LoadedAsWritten(env, ExampleRows())[0].proParteKeys == map[100 := 7, 200 := 8]
  {
    var rows := ExampleRows();
    ExampleAsWrittenLosesDeletion(env);
    var s0 := ProParteStepAsWritten(env, Writer(None, None), rows[0]);
    var s1 := ProParteStepAsWritten(env, s0.next, rows[1]);
    var first: seq<Row> := rows[..1];
    assert rows[..|rows| - 1] == first;
    assert first[..0] == [];
    assert s0.flushed.None? by { ExampleNumbers(); }
    assert FeedAsWritten(env, first) == Fed([], s0.next, true);
    assert FeedAsWritten(env, rows) == Fed([], s1.next, true);
  }

  /** Handing over one more usage stores it after the others when it has a key. */
  lemma StoredSnoc(env: Env, base: seq<Usage>, flushed: seq<Usage>, u: Option<Usage>)
    ensures base + Stored(env, flushed + OptSeq(u))
         == (base + Stored(env, flushed)) + if u.Some? && KeyOf(env, u.value).Some? then [u.value] else []
  {
    StoredConcat(env, flushed, OptSeq(u));
    if u.Some? {
      var one := [u.value];
      assert one[..0] == [];
    }
  }

  /** One addRow on the writer's fold: the new writer state, and the stored usages
      grow by the usage handed over when it has a key. */
  lemma WriterStep(env: Env, base: seq<Usage>, rows: seq<Row>, row: Row, added: seq<Usage>)
    requires AllRows(rows) && |row| == 10
    requires added == base + Stored(env, Feed(env, rows).flushed)
    ensures AllRows(rows + [row])
    ensures var s := ProParteStep(env, Feed(env, rows).writer, row);
      && Feed(env, rows + [row]).writer == s.next
      && base + Stored(env, Feed(env, rows + [row]).flushed) == added + Stored(env, OptSeq(s.flushed))
  {
    FeedSnoc(env, rows, row);
    AppendStored(env, base, Feed(env, rows).flushed, OptSeq(ProParteStep(env, Feed(env, rows).writer, row).flushed));
  }

  lemma AppendStored(env: Env, base: seq<Usage>, a: seq<Usage>, b: seq<Usage>)
    ensures base + Stored(env, a + b) == (base + Stored(env, a)) + Stored(env, b)
  {
    StoredConcat(env, a, b);
    assert base + (Stored(env, a) + Stored(env, b)) == (base + Stored(env, a)) + Stored(env, b);
  }

  /** Hands a usage, if there is one, to add. */
  method Flush(lookup: IdLookup, u: Option<Usage>)
    requires lookup.Valid()
    modifies lookup
    ensures lookup.Valid()
    ensures lookup.added == old(lookup.added) + Stored(lookup.env, OptSeq(u))
  {
    StoredSnoc(lookup.env, [], [], u);
    if u.Some? {
      lookup.Add(u.value);
    }
  }

  /** ProParteUsageWriter, reading the deleted flag from column 9. `rows` are the rows
      given to addRow so far and `base` the stored usages when the writer was opened. */
  class ProParteUsageWriter {
    const lookup: IdLookup
    var current: Option<Usage>
    var lastProParteKey: Option<int>
    ghost var rows: seq<Row>
    ghost const base: seq<Usage>

    ghost predicate Valid()
      reads this, lookup
    {
      && lookup.Valid() && AllRows(rows)
      && Writer(current, lastProParteKey) == Feed(lookup.env, rows).writer
      && lookup.added == base + Stored(lookup.env, Feed(lookup.env, rows).flushed)
    }

    constructor(lookup: IdLookup)
      requires lookup.Valid()
      ensures Valid() && this.lookup == lookup && rows == [] && base == lookup.added
      ensures current.None? && lastProParteKey.None?
    {
      this.lookup := lookup;
      current := None;
      lastProParteKey := None;
      rows := [];
      base := lookup.added;
      new;
      assert Stored(lookup.env, []) == [];
    }

    /** addRow: one step of the fold; the usage it hands over is added to the lookup. */
    method AddRow(row: Row) returns (err: Option<LoadError>)
      requires Valid() && |row| == 10
      modifies this, lookup
      ensures Valid() && rows == old(rows) + [row]
      ensures var s := ProParteStep(lookup.env, Writer(old(current), old(lastProParteKey)), row);
        && err == s.error && Writer(current, lastProParteKey) == s.next
        && lookup.added == old(lookup.added) + Stored(lookup.env, OptSeq(s.flushed))
    {
      var step := ProParteStep(lookup.env, Writer(current, lastProParteKey), row);
      WriterStep(lookup.env, base, rows, row, lookup.added);
      Flush(lookup, step.flushed);
      current := step.next.current;
      lastProParteKey := step.next.lastProParteKey;
      err := step.error;
      rows := rows + [row];
    }

    /** close: adds the group usage still being built, if there is one. */
    method Close()
      requires Valid()
      modifies lookup
      ensures lookup.Valid()
      ensures lookup.added == base + Stored(lookup.env, Loaded(lookup.env, rows))
    {
      StoredSnoc(lookup.env, base, Feed(lookup.env, rows).flushed, current);
      if current.Some? {
        lookup.Add(current.value);
      }
    }
  }
}
