/**
 * performance_across_days.py: for one animal, a bar per recording day of the
 * share of rewarded, punished, rewarded-left and rewarded-right trials,
 * each day labelled with the box its first session file names.
 */
module AcrossDays {
  import opened Wrappers
  import opened Tables
  import opened Text
  import Names
  import Calendar
  import Outcomes
  import Sorting
  import GeneralSessions

  // ---- `day_metrics` ----

  /** The four percentages of one day. */
  datatype DayMetrics = DayMetrics(correct: real, incorrect: real, correctLeft: real, correctRight: real)

  /**
   * What stops `process_animal`: a column `day_metrics` reads that the day's
   * files lack (`KeyError`), or a date folder naming a day that does not
   * exist (`ValueError` from `datetime`).
   */
  datatype DayError = MissingColumn(column: Column) | InvalidDate(name: string)

  /** The columns `day_metrics` reads, in the order it reads them. */
  const MetricColumns: seq<Column> := [Reward, Punishment, LeftSpout, RightSpout]

  predicate InPercentRange(p: real) { 0.0 <= p <= 100.0 }

  /**
   * `day_metrics`: `None` for a day without rows; otherwise each share is the
   * percentage of rows whose flags are `== 1` (a NaN flag is not).
   */
  function DayMetricsOf(t: Table): (r: Result<Option<DayMetrics>, DayError>)
    ensures r == Ok(None) <==> t.rows == []
    ensures r.Err? <==> t.rows != [] && GeneralSessions.FirstMissing(t.columns, MetricColumns).Some?
    ensures r.Err? ==> r.error.MissingColumn? && r.error.column in MetricColumns && r.error.column !in t.columns
    ensures r.Ok? && r.value.Some? ==>
              var m := r.value.value;
              InPercentRange(m.correct) && InPercentRange(m.incorrect)
              && InPercentRange(m.correctLeft) && InPercentRange(m.correctRight)
              && m.correctLeft <= m.correct && m.correctRight <= m.correct
  {
    if t.rows == [] then Ok(None)
    else
      var missing := GeneralSessions.FirstMissing(t.columns, MetricColumns);
      if missing.Some? then Err(MissingColumn(missing.value))
      else
        var n := |t.rows|;
        Outcomes.CountBothBounded(t.rows, Reward, LeftSpout);
        Outcomes.CountBothBounded(t.rows, Reward, RightSpout);
        Outcomes.PercentMonotone(Outcomes.CountBoth(t.rows, Reward, LeftSpout), Outcomes.CountFlag(t.rows, Reward), n);
        Outcomes.PercentMonotone(Outcomes.CountBoth(t.rows, Reward, RightSpout), Outcomes.CountFlag(t.rows, Reward), n);
        Ok(Some(DayMetrics(
          Outcomes.Percent(Outcomes.CountFlag(t.rows, Reward), n),
          Outcomes.Percent(Outcomes.CountFlag(t.rows, Punishment), n),
          Outcomes.Percent(Outcomes.CountBoth(t.rows, Reward, LeftSpout), n),
          Outcomes.Percent(Outcomes.CountBoth(t.rows, Reward, RightSpout), n))))
  }

  /** The order in which a day's files are concatenated does not change its metrics. */
  lemma DayMetricsIgnoreRowOrder(a: Table, b: Table)
    requires a.columns == b.columns && multiset(a.rows) == multiset(b.rows)
    ensures DayMetricsOf(a) == DayMetricsOf(b)
  {
    assert |a.rows| == |multiset(a.rows)| == |b.rows|;
    CountPermutation(a.rows, b.rows, r => Flag(r, Reward));
    CountPermutation(a.rows, b.rows, r => Flag(r, Punishment));
    CountPermutation(a.rows, b.rows, r => Outcomes.Both(r, Reward, LeftSpout));
    CountPermutation(a.rows, b.rows, r => Outcomes.Both(r, Reward, RightSpout));
  }

  /**
   * On a day where every trial ends in exactly one of reward and punishment,
   * the correct and incorrect bars add up to 100%.
   */
  lemma CorrectAndIncorrectComplement(t: Table)
    requires t.rows != [] && forall k :: 0 <= k < |MetricColumns| ==> MetricColumns[k] in t.columns
    requires forall r :: r in t.rows ==> (Flag(r, Reward) <==> !Flag(r, Punishment))
    ensures DayMetricsOf(t).Ok? && DayMetricsOf(t).value.Some?
    ensures DayMetricsOf(t).value.value.correct + DayMetricsOf(t).value.value.incorrect == 100.0
  {
    RewardOrPunishment(t.rows);
    PercentsAddUp(Outcomes.CountFlag(t.rows, Reward), Outcomes.CountFlag(t.rows, Punishment), |t.rows|);
  }

  lemma {:induction false} RewardOrPunishment(rows: seq<Row>)
    requires forall r :: r in rows ==> (Flag(r, Reward) <==> !Flag(r, Punishment))
    ensures Outcomes.CountFlag(rows, Reward) + Outcomes.CountFlag(rows, Punishment) == |rows|
  {
    if rows != [] {
      assert forall r :: r in rows[1..] ==> r in rows;
      RewardOrPunishment(rows[1..]);
      CountSplit([rows[0]], rows[1..], r => Flag(r, Reward));
      CountSplit([rows[0]], rows[1..], r => Flag(r, Punishment));
      assert [rows[0]] + rows[1..] == rows;
    }
  }

  lemma PercentsAddUp(a: nat, b: nat, n: nat)
    requires n > 0 && a + b == n
    ensures Outcomes.Percent(a, n) + Outcomes.Percent(b, n) == 100.0
  {
    var y := n as real;
    assert a as real + b as real == y;
    assert a as real / y + b as real / y == (a as real + b as real) / y;
    assert y / y == 1.0;
  }

  // ---- `load_day_csvs` ----

  /** One CSV file of a day folder: its name and its trials. */
  datatype CsvFile = CsvFile(name: string, table: Table)

  /** `glob(os.path.join(day_dir, prefix + "*.csv"))`, in listing order. */
  function Glob(listing: seq<CsvFile>, prefix: string): (r: seq<CsvFile>)
    ensures |r| <= |listing|
    ensures forall f :: f in r <==> f in listing && StartsWith(f.name, prefix) && EndsWith(f.name, ".csv")
  {
    if listing == [] then []
    else
      var f := listing[0];
      var rest := Glob(listing[1..], prefix);
      assert forall g :: g in listing <==> g == f || g in listing[1..];
      (if StartsWith(f.name, prefix) && EndsWith(f.name, ".csv") then [f] else []) + rest
  }

  /** `files` of `load_day_csvs`: the `2ChoiceAuditory*.csv` files, then the `2ChoiceBlocks*.csv` ones. */
  function DayCsvs(listing: seq<CsvFile>): seq<CsvFile>
  {
    Glob(listing, "2ChoiceAuditory") + Glob(listing, "2ChoiceBlocks")
  }

  function TablesOf(files: seq<CsvFile>): (ts: seq<Table>)
    ensures |ts| == |files| && forall k :: 0 <= k < |files| ==> ts[k] == files[k].table
  {
    if files == [] then [] else [files[0].table] + TablesOf(files[1..])
  }

  /**
   * `load_day_csvs`: the day's matching files concatenated, and the box label
   * of the first of them; an empty table and no label when none match.
   */
  function LoadDay(listing: seq<CsvFile>): (r: (Table, Option<string>))
    ensures DayCsvs(listing) == [] ==> r.0.rows == [] && r.1.None?
    ensures DayCsvs(listing) != [] ==> r.1 == Names.BoxLabel(Stem(DayCsvs(listing)[0].name))
    ensures r.0 == Concat(TablesOf(DayCsvs(listing)))
  {
    var files := DayCsvs(listing);
    if files == [] then (Table({}, []), None)
    else (Concat(TablesOf(files)), Names.BoxLabel(Stem(files[0].name)))
  }

  /** The label comes from the first auditory file whenever there is one, however many block files there are. */
  lemma AuditoryFileNamesTheBox(listing: seq<CsvFile>, k: nat)
    requires k < |listing| && StartsWith(listing[k].name, "2ChoiceAuditory") && EndsWith(listing[k].name, ".csv")
    requires forall j :: 0 <= j < k ==> !(StartsWith(listing[j].name, "2ChoiceAuditory") && EndsWith(listing[j].name, ".csv"))
    ensures LoadDay(listing).1 == Names.BoxLabel(Stem(listing[k].name))
  {
    GlobFirst(listing, "2ChoiceAuditory", k);
  }

  /** The first file a glob returns is the first listed file that matches. */
  lemma {:induction false} GlobFirst(listing: seq<CsvFile>, prefix: string, k: nat)
    requires k < |listing| && StartsWith(listing[k].name, prefix) && EndsWith(listing[k].name, ".csv")
    requires forall j :: 0 <= j < k ==> !(StartsWith(listing[j].name, prefix) && EndsWith(listing[j].name, ".csv"))
    ensures Glob(listing, prefix) != [] && Glob(listing, prefix)[0] == listing[k]
  {
    if k > 0 {
      GlobFirst(listing[1..], prefix, k - 1);
    }
  }

  // ---- `process_animal` ----

  /** A folder under the animal's `Behavior` directory: its name and the files in it. */
  datatype DayFolder = DayFolder(name: string, listing: seq<CsvFile>)

  /** One row of `perf` together with the box label collected for it. */
  datatype Entry = Entry(date: Names.Date, metrics: DayMetrics, box: string)

  predicate GoodEntry(e: Entry)
  {
    Calendar.ValidDate(e.date.year, e.date.month, e.date.day) && GoodDay(e)
  }

  /** The shares are percentages, the side shares within the correct one, and the label names a box. */
  predicate GoodDay(e: Entry)
  {
    InPercentRange(e.metrics.correct) && InPercentRange(e.metrics.incorrect)
    && e.metrics.correctLeft <= e.metrics.correct && e.metrics.correctRight <= e.metrics.correct
    && StartsWith(e.box, "Box ")
  }

  /**
   * One pass of the loop: nothing for a folder that is not a date or has no
   * trials; the day's metrics and box label ("Box ?" when there is none) otherwise.
   */
  function DayEntry(day: DayFolder): (r: Result<Option<Entry>, DayError>)
    ensures r.Err? && r.error.InvalidDate? ==> Names.ParseDate(day.name).Err?
    ensures r.Ok? && r.value.Some? ==> GoodEntry(r.value.value)
    ensures r.Ok? && r.value.Some? ==> Names.ParseDate(day.name) == Ok(Some(r.value.value.date))
    ensures Names.ParseDate(day.name) == Ok(None) ==> r == Ok(None)
  {
    match Names.ParseDate(day.name)
    case Err(_) => Err(InvalidDate(day.name))
    case Ok(None) => Ok(None)
    case Ok(Some(d)) => DatedEntry(d, day.listing)
  }

  /** The entry of a folder named for the day `d`. */
  function DatedEntry(d: Names.Date, listing: seq<CsvFile>): (r: Result<Option<Entry>, DayError>)
    ensures r.Err? ==> r.error.MissingColumn?
    ensures r.Ok? && r.value.Some? ==> r.value.value.date == d && GoodDay(r.value.value)
  {
    var (t, found) := LoadDay(listing);
    match DayMetricsOf(t)
    case Err(e) => Err(e)
    case Ok(None) => Ok(None)
    case Ok(Some(m)) =>
      var box := if found.Some? then found.value else "Box ?";
      assert StartsWith("Box ?", "Box ");
      Ok(Some(Entry(d, m, box)))
  }

  /** The `rows`/`boxes` pairs the loop has collected after `days`, in listing order. */
  function Entries(days: seq<DayFolder>): Result<seq<Entry>, DayError>
  {
    if days == [] then Ok([]) else AddEntry(Entries(days[..|days| - 1]), DayEntry(days[|days| - 1]))
  }

  /** One pass of the loop after the earlier ones. */
  function AddEntry(before: Result<seq<Entry>, DayError>, e: Result<Option<Entry>, DayError>): Result<seq<Entry>, DayError>
  {
    match before
    case Err(_) => before
    case Ok(rows) =>
      match e
      case Err(x) => Err(x)
      case Ok(None) => before
      case Ok(Some(x)) => Ok(rows + [x])
  }

  /** Every collected row is a good one, at most one per folder; an error comes from some folder. */
  lemma {:induction false} EntriesMeaning(days: seq<DayFolder>)
    ensures Entries(days).Ok? ==> |Entries(days).value| <= |days|
                                  && forall k :: 0 <= k < |Entries(days).value| ==> GoodEntry(Entries(days).value[k])
    ensures Entries(days).Err? ==> exists k :: 0 <= k < |days| && DayEntry(days[k]).Err?
  {
    if days != [] {
      var init := days[..|days| - 1];
      var e := DayEntry(days[|days| - 1]);
      assert Entries(days) == AddEntry(Entries(init), e);
      EntriesMeaning(init);
      if Entries(init).Err? {
        var k :| 0 <= k < |init| && DayEntry(init[k]).Err?;
        assert init[k] == days[k];
      } else if e.Ok? && e.value.Some? {
        assert Entries(days) == Ok(Entries(init).value + [e.value.value]);
        AppendGood(Entries(init).value, e.value.value);
      }
    }
  }

  lemma AppendGood(rows: seq<Entry>, x: Entry)
    requires forall k :: 0 <= k < |rows| ==> GoodEntry(rows[k])
    requires GoodEntry(x)
    ensures forall k :: 0 <= k < |rows + [x]| ==> GoodEntry((rows + [x])[k])
  {
    forall k | 0 <= k < |rows + [x]| ensures GoodEntry((rows + [x])[k]) {
      if k < |rows| { assert (rows + [x])[k] == rows[k]; }
    }
  }

  /** Folders whose names are not dates contribute nothing. */
  lemma {:induction false} NonDateFoldersAreIgnored(days: seq<DayFolder>, other: DayFolder)
    requires Names.ParseDate(other.name) == Ok(None)
    ensures Entries(days + [other]) == Entries(days)
  {
    assert (days + [other])[..|days|] == days;
  }

  /** The date of a row of `perf`, as `sort_index` orders it. */
  function ByDate(e: Entry): int { Names.DateKey(e.date) }

  /** What `process_animal` plots: `perf`'s rows in plotting order, and the box label of each bar. */
  datatype Panels = Panels(days: seq<(Names.Date, DayMetrics)>, boxes: seq<string>)

  function Days(es: seq<Entry>): (ds: seq<(Names.Date, DayMetrics)>)
    ensures |ds| == |es| && forall k :: 0 <= k < |es| ==> ds[k] == (es[k].date, es[k].metrics)
  {
    seq(|es|, k requires 0 <= k < |es| => (es[k].date, es[k].metrics))
  }

  function Boxes(es: seq<Entry>): (bs: seq<string>)
    ensures |bs| == |es| && forall k :: 0 <= k < |es| ==> bs[k] == es[k].box
  {
    seq(|es|, k requires 0 <= k < |es| => es[k].box)
  }

  /** The bar at position `k`, with the label drawn over it. */
  function Bar(p: Panels, k: nat): Entry
    requires k < |p.days| && k < |p.boxes|
  {
    Entry(p.days[k].0, p.days[k].1, p.boxes[k])
  }

  /**
   * The plot as intended: days in date order, each with the label of its own
   * folder, that is the rows and their labels sorted together.
   */
  function Labelled(es: seq<Entry>): (p: Panels)
    ensures |p.days| == |es| && |p.boxes| == |es|
  {
    var sorted := Sorting.SortBy(es, ByDate);
    Panels(Days(sorted), Boxes(sorted))
  }

  /**
   * The intended plot shows the days in date order, and its bars, each with
   * its label, are exactly the collected rows.
   */
  lemma LabelledMeaning(es: seq<Entry>)
    ensures var p := Labelled(es);
            (forall i, j :: 0 <= i < j < |p.days| ==> Names.DateKey(p.days[i].0) <= Names.DateKey(p.days[j].0))
            && (forall k :: 0 <= k < |es| ==> Bar(p, k) in es)
            && multiset(seq(|es|, k requires 0 <= k < |es| => Bar(p, k))) == multiset(es)
  {
    var sorted := Sorting.SortBy(es, ByDate);
    var p := Labelled(es);
    var bars := seq(|es|, k requires 0 <= k < |es| => Bar(p, k));
    forall k | 0 <= k < |es| ensures bars[k] == sorted[k] {
      assert p.days[k] == (sorted[k].date, sorted[k].metrics) && p.boxes[k] == sorted[k].box;
    }
    assert bars == sorted;
    forall i, j | 0 <= i < j < |p.days| ensures Names.DateKey(p.days[i].0) <= Names.DateKey(p.days[j].0) {
      assert p.days[i].0 == sorted[i].date && p.days[j].0 == sorted[j].date;
    }
    forall k | 0 <= k < |es| ensures Bar(p, k) in es {
      assert Bar(p, k) == sorted[k];
      assert sorted[k] in multiset(es);
    }
  }

  /** `np.argsort`: the positions of `keys`, stably ordered by the key at each position. */
  function ArgSort(keys: seq<int>): (idx: seq<int>)
    ensures |idx| == |keys| && forall k :: 0 <= k < |idx| ==> 0 <= idx[k] < |keys|
  {
    var positions := seq(|keys|, i requires 0 <= i < |keys| => i);
    var idx := Sorting.SortBy(positions, (i: int) => KeyAt(keys, i));
    forall k | 0 <= k < |idx| ensures 0 <= idx[k] < |keys| {
      assert idx[k] in multiset(positions);
    }
    idx
  }

  function KeyAt(keys: seq<int>, i: int): int
  {
    if 0 <= i < |keys| then keys[i] else 0
  }

  /** The argsort of keys already in ascending order is the identity. */
  lemma ArgSortOfSorted(keys: seq<int>)
    requires forall i, j :: 0 <= i < j < |keys| ==> keys[i] <= keys[j]
    ensures ArgSort(keys) == seq(|keys|, i requires 0 <= i < |keys| => i)
  {
    var positions := seq(|keys|, i requires 0 <= i < |keys| => i);
    Sorting.SortBySorted(positions, (i: int) => KeyAt(keys, i));
  }

  /**
   * Lines 141-142 as written: `perf` sorted by date, and `boxes` indexed by
   * the argsort of `perf`'s already sorted index, which leaves the labels in
   * folder-listing order.
   */
  function AsWrittenPanels(es: seq<Entry>): (p: Panels)
    ensures p.days == Days(Sorting.SortBy(es, ByDate))
    ensures p.boxes == Boxes(es)
  {
    var sorted := Sorting.SortBy(es, ByDate);
    var index := seq(|sorted|, k requires 0 <= k < |sorted| => ByDate(sorted[k]));
    var order := ArgSort(index);
    ArgSortOfSorted(index);
    var boxes := Boxes(es);
    Panels(Days(sorted), seq(|order|, k requires 0 <= k < |order| => boxes[order[k]]))
  }

  /**
   * The two plots agree when the folders are listed in date order; with a
   * box change between days listed out of order, the as-written plot puts a
   * label over a day that was not recorded in that box.
   */
  lemma AsWrittenAgreesOnDateOrderedListing(es: seq<Entry>)
    requires Sorting.SortedBy(es, ByDate)
    ensures AsWrittenPanels(es) == Labelled(es)
  {
    Sorting.SortBySorted(es, ByDate);
  }

  lemma AsWrittenMislabelsOutOfOrderListing()
    ensures var m := DayMetrics(50.0, 50.0, 25.0, 25.0);
            var es := [Entry(Names.Date(2025, 6, 2), m, "Box 1"), Entry(Names.Date(2025, 5, 30), m, "Box 2")];
            Bar(AsWrittenPanels(es), 0) == Entry(Names.Date(2025, 5, 30), m, "Box 1")
            && Bar(AsWrittenPanels(es), 0) !in es
            && Bar(Labelled(es), 0) == Entry(Names.Date(2025, 5, 30), m, "Box 2")
  {
    var m := DayMetrics(50.0, 50.0, 25.0, 25.0);
    var e1 := Entry(Names.Date(2025, 6, 2), m, "Box 1");
    var e2 := Entry(Names.Date(2025, 5, 30), m, "Box 2");
    var es := [e1, e2];
    Sorting.ByKeyIsTotalPreorder(ByDate);
    var le := Sorting.ByKey(ByDate);
    assert Sorting.SortWith([e2], le) == [e2];
    assert ByDate(e1) == 20250602 && ByDate(e2) == 20250530;
    assert !le(e1, e2);
    assert Sorting.Insert(e1, [], le) == [e1];
    assert [e2][1..] == [];
    assert Sorting.Insert(e1, [e2], le) == [e2, e1];
    assert Sorting.SortBy(es, ByDate) == [e2, e1];
  }

  /**
   * `process_animal`: nothing when the animal has no `Behavior` folder or no
   * usable day; otherwise the collected days, sorted by date, under the box
   * labels in folder-listing order, which are each day's own labels when the
   * folders were listed in date order.
   */
  method ProcessAnimal(behavior: Option<seq<DayFolder>>) returns (r: Result<Option<Panels>, DayError>)
    ensures behavior.None? ==> r == Ok(None)
    ensures behavior.Some? ==> (r.Err? <==> Entries(behavior.value).Err?)
    ensures behavior.Some? ==> (r == Ok(None) <==> Entries(behavior.value) == Ok([]))
    ensures r.Ok? && r.value.Some? ==> behavior.Some? && Entries(behavior.value).Ok?
                                       && r.value.value == AsWrittenPanels(Entries(behavior.value).value)
    ensures r.Ok? && r.value.Some? && Sorting.SortedBy(Entries(behavior.value).value, ByDate) ==>
              r.value.value == Labelled(Entries(behavior.value).value)
  {
    if behavior.None? {
      return Ok(None);
    }
    var collected := CollectEntries(behavior.value);
    if collected.Err? {
      return Err(collected.error);
    }
    var rows := collected.value;
    if rows == [] {
      return Ok(None);
    }
    if Sorting.SortedBy(rows, ByDate) {
      AsWrittenAgreesOnDateOrderedListing(rows);
    }
    return Ok(Some(AsWrittenPanels(rows)));
  }

  /** The loop of `process_animal` over the date folders, in listing order. */
  method CollectEntries(days: seq<DayFolder>) returns (r: Result<seq<Entry>, DayError>)
    ensures r == Entries(days)
  {
    var rows: seq<Entry> := [];
    var i := 0;
    while i < |days|
      invariant 0 <= i <= |days|
      invariant Entries(days[..i]) == Ok(rows)
    {
      assert days[..i + 1][..i] == days[..i];
      var entry := DayEntry(days[i]);
      assert Entries(days[..i + 1]) == AddEntry(Ok(rows), entry);
      if entry.Err? {
        ErrorPersists(days, i + 1);
        return Err(entry.error);
      }
      if entry.value.Some? {
        rows := rows + [entry.value.value];
      }
      i := i + 1;
    }
    assert days[..|days|] == days;
    return Ok(rows);
  }

  /** Once a folder raises, the rest of the listing does not matter. */
  lemma {:induction false} ErrorPersists(days: seq<DayFolder>, n: nat)
    requires n <= |days| && Entries(days[..n]).Err?
    ensures Entries(days) == Entries(days[..n])
    decreases |days| - n
  {
    if n < |days| {
      assert days[..n + 1][..n] == days[..n];
      assert Entries(days[..n + 1]) == AddEntry(Entries(days[..n]), DayEntry(days[n]));
      ErrorPersists(days, n + 1);
    } else {
      assert days[..n] == days;
    }
  }

  // ---- `load_tone_mapping` ----

  /** A row of the tone-to-spout map: the animal id as text and the two spouts. */
  datatype ToneRow = ToneRow(animal: string, spout8k: string, spout16k: string)

  /** The first row for `animal`, if any. */
  function FirstToneRow(rows: seq<ToneRow>, animal: string): (r: Option<nat>)
    ensures r.Some? ==> r.value < |rows| && rows[r.value].animal == animal
    ensures r.Some? ==> forall j :: 0 <= j < r.value ==> rows[j].animal != animal
    ensures r.None? ==> forall j :: 0 <= j < |rows| ==> rows[j].animal != animal
  {
    if rows == [] then None
    else if rows[0].animal == animal then Some(0)
    else
      match FirstToneRow(rows[1..], animal)
      case None => None
      case Some(k) => Some(k + 1)
  }

  /**
   * `load_tone_mapping`: the subtitle line naming each tone's spout for the
   * first row of the animal; `None` when the map file is missing or has no row
   * for it.
   */
  function ToneMapping(file: Option<seq<ToneRow>>, animal: string): (r: Option<string>)
    ensures r.None? <==> file.None? || forall j :: 0 <= j < |file.value| ==> file.value[j].animal != animal
    ensures r.Some? ==> exists j :: 0 <= j < |file.value| && file.value[j].animal == animal && r.value == MappingText(file.value[j])
                                    && forall k :: 0 <= k < j ==> file.value[k].animal != animal
  {
    if file.None? then None
    else
      match FirstToneRow(file.value, animal)
      case None => None
      case Some(k) =>
        Some(MappingText(file.value[k]))
  }

  function MappingText(row: ToneRow): string
  {
    "Tone–spout mapping: 8KHz → " + row.spout8k + " spout, 16KHz → " + row.spout16k + " spout"
  }
}
