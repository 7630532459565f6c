/**
 * The across-days summaries of general_2choice_auditory.py,
 * general_free_licking.py and general_spout_sampling.py: one loader per
 * script that reduces a session table to its plotted numbers (or fails the
 * way pandas raises), and the shared `main` loop that keeps the files whose
 * name and table load, sorts them by date and labels them "Day 1", "Day 2", ...
 */
module GeneralSessions {
  import opened Wrappers
  import opened Tables
  import opened Text
  import Detection
  import Outcomes
  import Names
  import Sorting

  /** Why a loader raises: a column it indexes is missing, or `iloc[0]` on an empty table. */
  datatype LoadError = MissingColumn(column: Column) | NoFirstRow

  /** The first column of `required`, in the order the script reads them, that the table lacks. */
  function FirstMissing(columns: set<Column>, required: seq<Column>): (r: Option<Column>)
    ensures r.None? <==> forall k :: 0 <= k < |required| ==> required[k] in columns
    ensures r.Some? ==> r.value in required && r.value !in columns
    ensures r.Some? ==> MissingFirst(columns, required, r.value)
  {
    if required == [] then None
    else if required[0] !in columns then Some(required[0])
    else
      var rest := FirstMissing(columns, required[1..]);
      assert forall k :: 1 <= k < |required| ==> required[k] == required[1..][k - 1];
      if rest.Some? then
        var k :| 0 <= k < |required[1..]| && required[1..][k] == rest.value
                 && forall j :: 0 <= j < k ==> required[1..][j] in columns;
        assert required[k + 1] == rest.value && forall j :: 0 <= j < k + 1 ==> required[j] in columns;
        rest
      else rest
  }

  /**
   * `c` is the column a run of reads in the order `required` fails at: it is
   * missing, and every column read before it is present.
   */
  predicate MissingFirst(columns: set<Column>, required: seq<Column>, c: Column)
  {
    c !in columns && exists k :: 0 <= k < |required| && required[k] == c && forall j :: 0 <= j < k ==> required[j] in columns
  }

  // ---- general_2choice_auditory.py `load_trial_counts` ----

  /** A cell after `fillna(0)`. */
  function Cell(r: Row, c: Column): real
  {
    if c in r.cells then r.cells[c] else 0.0
  }

  /** `lick_time - (trial_start + 1.2)` of one row. */
  function Latency(r: Row): real
  {
    Cell(r, LickTime) - (Cell(r, TrialStart) + 1.2)
  }

  function Sum(xs: seq<real>): real
  {
    if xs == [] then 0.0 else xs[0] + Sum(xs[1..])
  }

  /** `Series.mean()`, `None` for no values. */
  function Mean(xs: seq<real>): (m: Option<real>)
    ensures m.None? <==> xs == []
  {
    if xs == [] then None else Some(Sum(xs) / |xs| as real)
  }

  /** The `lick_latency` column of the selected rows. */
  function Latencies(rows: seq<Row>): (xs: seq<real>)
    ensures |xs| == |rows|
    ensures forall i :: 0 <= i < |rows| ==> xs[i] == Latency(rows[i])
  {
    seq(|rows|, i requires 0 <= i < |rows| => Latency(rows[i]))
  }

  lemma {:induction false} SumWithin(xs: seq<real>, lo: real, hi: real)
    requires forall i :: 0 <= i < |xs| ==> lo <= xs[i] <= hi
    ensures |xs| as real * lo <= Sum(xs) <= |xs| as real * hi
  {
    if xs != [] {
      SumWithin(xs[1..], lo, hi);
      var n := |xs[1..]| as real;
      assert |xs| as real * lo == n * lo + lo;
      assert |xs| as real * hi == n * hi + hi;
    }
  }

  /** A mean lies between the smallest and the largest value it averages. */
  lemma MeanWithin(xs: seq<real>, lo: real, hi: real)
    requires xs != []
    requires forall i :: 0 <= i < |xs| ==> lo <= xs[i] <= hi
    ensures lo <= Mean(xs).value <= hi
  {
    SumWithin(xs, lo, hi);
    var n := |xs| as real;
    var m := Sum(xs) / n;
    assert Mean(xs).value == m;
    assert m * n == Sum(xs);
    if m < lo {
      ProductPositive(lo - m, n);
    }
    if hi < m {
      ProductPositive(m - hi, n);
    }
  }

  lemma ProductPositive(a: real, b: real)
    requires a > 0.0 && b > 0.0
    ensures a * b > 0.0
  {
  }

  /** The outcome counts of the returned dictionary. */
  datatype ChoiceOutcomes = ChoiceOutcomes(
    correctLeft: nat, correctRight: nat, incorrectLeft: nat, incorrectRight: nat,
    early: nat, omission5k: nat, omission10k: nat)

  /** The returned dictionary; `total` is `len(df)`. Standard deviations are not modelled. */
  datatype ChoiceCounts = ChoiceCounts(
    outcomes: ChoiceOutcomes,
    dPrime: real, hitRate: real, falseAlarm: real,
    latencyLeft: Option<real>, latencyRight: Option<real>,
    total: nat, qw: Qw, automReward: bool)

  /** The columns indexed without a guard, in the order the loader reads them. */
  const ChoiceColumns: seq<Column> :=
    [TrialStart, LickTime, LeftSpout, RightSpout, Reward, Punishment, Omission, Tone5k, Tone10k]

  /** `df[c].iloc[0]` is evaluated for each present scalar column, and raises on an empty table. */
  predicate NoFirstRowFor(t: Table)
  {
    t.rows == [] && (DPrimeColumn in t.columns || HitRateColumn in t.columns || FalseAlarmColumn in t.columns)
  }

  /**
   * The outcome counts after `fillna(0)`. They equal the counts on the raw
   * table, because an `== 1` test is false for NaN and for 0 alike.
   */
  function ChoiceOutcomesOf(t: Table): (o: ChoiceOutcomes)
    ensures o.correctLeft == Outcomes.CountBoth(t.rows, LeftSpout, Reward)
    ensures o.correctRight == Outcomes.CountBoth(t.rows, RightSpout, Reward)
    ensures o.incorrectLeft == Outcomes.CountBoth(t.rows, LeftSpout, Punishment)
    ensures o.incorrectRight == Outcomes.CountBoth(t.rows, RightSpout, Punishment)
    ensures o.omission5k == Outcomes.CountBoth(t.rows, Omission, Tone5k)
    ensures o.omission10k == Outcomes.CountBoth(t.rows, Omission, Tone10k)
    ensures o.omission5k <= Outcomes.CountFlag(t.rows, Tone5k) && o.omission10k <= Outcomes.CountFlag(t.rows, Tone10k)
    ensures EarlyLick !in t.columns ==> o.early == 0
    ensures EarlyLick in t.columns ==> o.early == Outcomes.CountFlag(t.rows, EarlyLick)
  {
    var rows := FillNa(t).rows;
    FilledCountBoth(t, LeftSpout, Reward);
    FilledCountBoth(t, RightSpout, Reward);
    FilledCountBoth(t, LeftSpout, Punishment);
    FilledCountBoth(t, RightSpout, Punishment);
    FilledCountBoth(t, Omission, Tone5k);
    FilledCountBoth(t, Omission, Tone10k);
    FilledCountFlag(t, EarlyLick);
    Outcomes.CountBothBounded(t.rows, Omission, Tone5k);
    Outcomes.CountBothBounded(t.rows, Omission, Tone10k);
    ChoiceOutcomes(
      Outcomes.CountBoth(rows, LeftSpout, Reward), Outcomes.CountBoth(rows, RightSpout, Reward),
      Outcomes.CountBoth(rows, LeftSpout, Punishment), Outcomes.CountBoth(rows, RightSpout, Punishment),
      if EarlyLick in t.columns then Outcomes.CountFlag(rows, EarlyLick) else 0,
      Outcomes.CountBoth(rows, Omission, Tone5k), Outcomes.CountBoth(rows, Omission, Tone10k))
  }

  /**
   * `load_trial_counts` on a file that does not raise: the outcome counts,
   * the computed clipped hit and false-alarm rates and d', the mean latency
   * per side (absent without trials on that side), QW and the
   * automatic-reward flag.
   */
  function ChoiceCountsOf(ppf: real -> real, t: Table): (c: ChoiceCounts)
    ensures c.outcomes == ChoiceOutcomesOf(t) && c.total == |t.rows|
    ensures Detection.Floor <= c.hitRate <= Detection.Ceiling && Detection.Floor <= c.falseAlarm <= Detection.Ceiling
    ensures c.hitRate == Detection.ClippedRate(Hits(c.outcomes), c.total)
    ensures c.falseAlarm == Detection.ClippedRate(FalseAlarms(c.outcomes), c.total)
    ensures c.dPrime == Detection.DPrime(ppf, c.hitRate, c.falseAlarm)
    ensures c.latencyLeft.None? <==> Outcomes.CountFlag(t.rows, LeftSpout) == 0
    ensures c.latencyRight.None? <==> Outcomes.CountFlag(t.rows, RightSpout) == 0
    ensures WellFormed(t) ==> (c.qw == NA <==> QW !in t.columns || t.rows == [])
    ensures c.automReward <==> AutomReward in t.columns && 2 * Outcomes.CountFlag(t.rows, AutomReward) > |t.rows|
  {
    var f := FillNa(t);
    var rows := f.rows;
    FilledCountFlag(t, LeftSpout);
    FilledCountFlag(t, RightSpout);
    FilledCountFlag(t, AutomReward);
    QwOfFilledWhenWellFormed(t);
    AutomRewardIsStrictMajority(f);
    Scored(
      ppf, ChoiceOutcomesOf(t), |rows|,
      Mean(Latencies(Filter(rows, r => Flag(r, LeftSpout)))),
      Mean(Latencies(Filter(rows, r => Flag(r, RightSpout)))),
      QwOf(f), AutomRewardDominant(f))
  }

  /** Trials that count as hits: correct choices on either side. */
  function Hits(o: ChoiceOutcomes): nat { o.correctLeft + o.correctRight }

  /** Trials that count as false alarms: incorrect choices on either side. */
  function FalseAlarms(o: ChoiceOutcomes): nat { o.incorrectLeft + o.incorrectRight }

  /**
   * The counts of a session together with the scores computed from them:
   * the clipped hit rate over correct trials, the clipped false-alarm rate
   * over incorrect trials, and d' from the two.
   */
  function Scored(
    ppf: real -> real, o: ChoiceOutcomes, total: nat,
    latencyLeft: Option<real>, latencyRight: Option<real>, qw: Qw, automReward: bool): (c: ChoiceCounts)
    ensures c.outcomes == o && c.total == total && c.qw == qw && c.automReward == automReward
    ensures c.latencyLeft == latencyLeft && c.latencyRight == latencyRight
    ensures c.hitRate == Detection.ClippedRate(Hits(o), total)
    ensures c.falseAlarm == Detection.ClippedRate(FalseAlarms(o), total)
    ensures c.dPrime == Detection.DPrime(ppf, c.hitRate, c.falseAlarm)
  {
    var hr := Detection.ClippedRate(Hits(o), total);
    var fa := Detection.ClippedRate(FalseAlarms(o), total);
    ChoiceCounts(o, Detection.DPrime(ppf, hr, fa), hr, fa, latencyLeft, latencyRight, total, qw, automReward)
  }

  /**
   * `load_trial_counts`: a missing column raises `KeyError` at its first use,
   * and `iloc[0]` of a present `d_prime`, `hit_rate` or `false_alarm` column
   * raises `IndexError` on an empty table; every other table loads.
   */
  function LoadChoiceCounts(ppf: real -> real, t: Table): (r: Result<ChoiceCounts, LoadError>)
    ensures r.Err? <==> FirstMissing(t.columns, ChoiceColumns).Some? || NoFirstRowFor(t)
    ensures r.Ok? ==> r.value == ChoiceCountsOf(ppf, t)
  {
    var missing := FirstMissing(t.columns, ChoiceColumns);
    if missing.Some? then Err(MissingColumn(missing.value))
    else if NoFirstRowFor(t) then Err(NoFirstRow)
    else Ok(ChoiceCountsOf(ppf, t))
  }

  lemma QwOfFilledWhenWellFormed(t: Table)
    ensures WellFormed(t) ==> (QwOf(FillNa(t)) == NA <==> QW !in t.columns || |t.rows| == 0)
  {
    if WellFormed(t) {
      QwOfFilled(t);
    }
  }

  /** A conjunction of `== 1` tests counts the same rows before and after `fillna(0)`. */
  lemma FilledCountBoth(t: Table, a: Column, b: Column)
    ensures Outcomes.CountBoth(FillNa(t).rows, a, b) == Outcomes.CountBoth(t.rows, a, b)
  {
    var p := (r: Row) => Outcomes.Both(r, a, b);
    forall r ensures p(FillRow(r, t.columns)) <==> p(r) {
      FlagIgnoresFill(r, t.columns, a);
      FlagIgnoresFill(r, t.columns, b);
    }
    CountIgnoresFill(t.rows, t.columns, p);
  }

  /** An `== 1` test counts the same rows before and after `fillna(0)`. */
  lemma FilledCountFlag(t: Table, a: Column)
    ensures Outcomes.CountFlag(FillNa(t).rows, a) == Outcomes.CountFlag(t.rows, a)
  {
    var p := (r: Row) => Flag(r, a);
    forall r ensures p(FillRow(r, t.columns)) <==> p(r) {
      FlagIgnoresFill(r, t.columns, a);
    }
    CountIgnoresFill(t.rows, t.columns, p);
  }

  // ---- general_free_licking.py `load_lick_counts` (no `fillna`) ----

  datatype LickCounts = LickCounts(left: real, right: real, total: real, qw: Qw)

  const LickColumns: seq<Column> := [LeftSpout, RightSpout, Lick]

  /** Column `c` holds only 0, 1 or NaN. */
  predicate ZeroOne(rows: seq<Row>, c: Column)
  {
    forall r :: r in rows && c in r.cells ==> r.cells[c] == 0.0 || r.cells[c] == 1.0
  }

  lemma SumOfZeroOneCounts(rows: seq<Row>, c: Column)
    ensures ZeroOne(rows, c) ==> CellSum(rows, c) == Outcomes.CountFlag(rows, c) as real
  {
    if ZeroOne(rows, c) {
      CellSumOfFlags(rows, c);
    }
  }

  /** Column sums (NaN skipped) and the QW mode over the raw table. */
  function LoadLickCounts(t: Table): (r: Result<LickCounts, LoadError>)
    ensures r.Err? <==> FirstMissing(t.columns, LickColumns).Some?
    ensures r.Ok? && ZeroOne(t.rows, LeftSpout) ==> r.value.left == Outcomes.CountFlag(t.rows, LeftSpout) as real
    ensures r.Ok? && ZeroOne(t.rows, RightSpout) ==> r.value.right == Outcomes.CountFlag(t.rows, RightSpout) as real
    ensures r.Ok? && ZeroOne(t.rows, Lick) ==> r.value.total == Outcomes.CountFlag(t.rows, Lick) as real
    ensures r.Ok? ==> (r.value.qw == NA <==> QW !in t.columns || |Values(t.rows, QW)| == 0)
    ensures r.Ok? && r.value.qw.Level? ==> r.value.qw.level in Values(t.rows, QW)
  {
    var missing := FirstMissing(t.columns, LickColumns);
    if missing.Some? then Err(MissingColumn(missing.value))
    else
      SumOfZeroOneCounts(t.rows, LeftSpout);
      SumOfZeroOneCounts(t.rows, RightSpout);
      SumOfZeroOneCounts(t.rows, Lick);
      Ok(LickCounts(CellSum(t.rows, LeftSpout), CellSum(t.rows, RightSpout), CellSum(t.rows, Lick), QwOf(t)))
  }

  // ---- general_spout_sampling.py `load_trial_counts` (no `fillna`) ----

  datatype SamplingCounts = SamplingCounts(correct: nat, incorrect: nat, incorrectLeft: nat, incorrectRight: nat, qw: Qw)

  const SamplingColumns: seq<Column> := [Lick, Reward, LeftSpout, RightSpout]

  predicate LickRewarded(r: Row) { Flag(r, Lick) && Flag(r, Reward) }
  predicate LickUnrewarded(r: Row) { Flag(r, Lick) && IsZero(r, Reward) }
  predicate SideUnrewarded(r: Row, side: Column) { Flag(r, side) && IsZero(r, Reward) }

  /**
   * Correct and incorrect are licks with `reward == 1` and `reward == 0`;
   * the side errors need no lick. `total_trials` is computed but not returned.
   */
  function LoadSamplingCounts(t: Table): (r: Result<SamplingCounts, LoadError>)
    ensures r.Err? <==> FirstMissing(t.columns, SamplingColumns).Some?
    ensures r.Ok? ==> r.value.correct + r.value.incorrect <= Outcomes.CountFlag(t.rows, Lick) <= |t.rows|
    ensures r.Ok? ==> (r.value.incorrectLeft <= Outcomes.CountFlag(t.rows, LeftSpout)
                    && r.value.incorrectRight <= Outcomes.CountFlag(t.rows, RightSpout))
    ensures r.Ok? ==> (r.value.qw == NA <==> QW !in t.columns || |Values(t.rows, QW)| == 0)
  {
    var missing := FirstMissing(t.columns, SamplingColumns);
    if missing.Some? then Err(MissingColumn(missing.value))
    else
      CorrectAndIncorrectAreDisjoint(t.rows);
      CountMonotone(t.rows, r => SideUnrewarded(r, LeftSpout), r => Flag(r, LeftSpout));
      CountMonotone(t.rows, r => SideUnrewarded(r, RightSpout), r => Flag(r, RightSpout));
      Ok(SamplingCounts(
        Count(t.rows, LickRewarded), Count(t.rows, LickUnrewarded),
        Count(t.rows, r => SideUnrewarded(r, LeftSpout)), Count(t.rows, r => SideUnrewarded(r, RightSpout)),
        QwOf(t)))
  }

  /** A lick is never both rewarded and unrewarded, so the two counts share the licks. */
  lemma CorrectAndIncorrectAreDisjoint(rows: seq<Row>)
    ensures Count(rows, LickRewarded) + Count(rows, LickUnrewarded) <= Outcomes.CountFlag(rows, Lick)
  {
    var lick := (r: Row) => Flag(r, Lick);
    var rewarded := (r: Row) => Flag(r, Reward);
    CountPartition(rows, lick, rewarded);
    CountMonotone(rows, LickRewarded, r => lick(r) && rewarded(r));
    CountMonotone(rows, LickUnrewarded, r => lick(r) && !rewarded(r));
    CountMonotone(rows, r => Flag(r, Lick), lick);
  }

  /** An unrewarded left-spout row with no lick is an incorrect-left trial but not an incorrect trial. */
  lemma SideErrorsNeedNoLick()
    ensures var r := Row(1, None, map[LeftSpout := 1.0, Reward := 0.0, Lick := 0.0]);
      Count([r], x => SideUnrewarded(x, LeftSpout)) == 1 && Count([r], LickUnrewarded) == 0
  {
    var r := Row(1, None, map[LeftSpout := 1.0, Reward := 0.0, Lick := 0.0]);
    assert [r][1..] == [];
  }

  // ---- `main`: collect, skip failures, sort by date, label days ----

  /** One kept session: its date and box groups and what the loader returned. */
  datatype Day<T> = Day(date: string, box: string, data: T)

  /**
   * The body of the `try`: the name's date and box, then the loaded table.
   * Either step raising skips the file.
   */
  function Entry<T, E>(file: string, load: string -> Result<T, E>): (d: Option<Day<T>>)
    ensures d.None? <==> Names.ExtractMetadata(file).Err? || load(file).Err?
    ensures d.Some? ==> |d.value.date| == 8 && AllDigits(d.value.date) && d.value.data == load(file).value
  {
    match Names.ExtractMetadata(file)
    case Err(_) => None
    case Ok(meta) =>
      match load(file)
      case Err(_) => None
      case Ok(data) => Some(Day(meta.0, meta.1, data))
  }

  /** The entry of every file, in file order. */
  function Entries<T, E>(files: seq<string>, load: string -> Result<T, E>): (es: seq<Option<Day<T>>>)
    ensures |es| == |files|
    ensures forall i :: 0 <= i < |files| ==> es[i] == Entry(files[i], load)
  {
    seq(|files|, i requires 0 <= i < |files| => Entry(files[i], load))
  }

  /** The values of the successful entries, in order. */
  function Kept<X>(es: seq<Option<X>>): (xs: seq<X>)
    ensures |xs| <= |es|
  {
    if es == [] then []
    else
      var init := Kept(es[..|es| - 1]);
      if es[|es| - 1].Some? then init + [es[|es| - 1].value] else init
  }

  /** A value is kept exactly when some entry holds it. */
  lemma {:induction false} KeptMembers<X>(es: seq<Option<X>>, x: X)
    ensures x in Kept(es) <==> exists i :: 0 <= i < |es| && es[i] == Some(x)
  {
    if es != [] {
      var init := es[..|es| - 1];
      var last := |es| - 1;
      KeptMembers(init, x);
      if x in Kept(es) && x !in Kept(init) {
        assert es[last] == Some(x);
      }
      if exists i :: 0 <= i < |es| && es[i] == Some(x) {
        var i :| 0 <= i < |es| && es[i] == Some(x);
        if i < last {
          assert init[i] == es[i];
        }
      }
    }
  }

  /** `summary` after the loop: the entries of the files that did not raise, in file order. */
  function Collected<T, E>(files: seq<string>, load: string -> Result<T, E>): (days: seq<Day<T>>)
    ensures |days| <= |files|
  {
    Kept(Entries(files, load))
  }

  /** A session is kept exactly when some file yields it, and every kept date has eight digits. */
  lemma CollectedAreTheLoadedFiles<T, E>(files: seq<string>, load: string -> Result<T, E>, d: Day<T>)
    ensures d in Collected(files, load) <==> exists i :: 0 <= i < |files| && Entry(files[i], load) == Some(d)
    ensures d in Collected(files, load) ==> |d.date| == 8 && AllDigits(d.date)
  {
    KeptMembers(Entries(files, load), d);
  }

  /** `summary.sort(key=lambda x: x["date"])`: stable, by date string. */
  function ByDate<T(!new)>(days: seq<Day<T>>): (sorted: seq<Day<T>>)
    ensures multiset(sorted) == multiset(days)
  {
    Sorting.ByStringIsTotalPreorder((d: Day<T>) => d.date);
    Sorting.SortWith(days, Sorting.ByString((d: Day<T>) => d.date))
  }

  /**
   * Sorting eight-digit date strings is sorting chronologically: the dates
   * read as numbers never decrease along the sorted summary.
   */
  lemma ByDateIsChronological<T(!new)>(days: seq<Day<T>>)
    requires forall k :: 0 <= k < |days| ==> |days[k].date| == 8 && AllDigits(days[k].date)
    ensures forall k :: 0 <= k < |ByDate(days)| ==> |ByDate(days)[k].date| == 8 && AllDigits(ByDate(days)[k].date)
    ensures forall i, j :: 0 <= i < j < |ByDate(days)| ==> DigitsValue(ByDate(days)[i].date) <= DigitsValue(ByDate(days)[j].date)
  {
    var key := (d: Day<T>) => d.date;
    Sorting.ByStringIsTotalPreorder(key);
    var s := ByDate(days);
    forall k | 0 <= k < |s| ensures |s[k].date| == 8 && AllDigits(s[k].date) {
      assert s[k] in multiset(days);
      var m :| 0 <= m < |days| && days[m] == s[k];
    }
    assert Sorting.Sorted(s, Sorting.ByString(key));
    forall i, j | 0 <= i < j < |s| ensures DigitsValue(s[i].date) <= DigitsValue(s[j].date) {
      assert Sorting.ByString(key)(s[i], s[j]);
      assert LexLe(s[i].date, s[j].date);
      LexLessIsNumericOrder(s[i].date, s[j].date);
    }
  }

  /** Sessions of the same date keep the order of their files. */
  lemma SameDateKeepsFileOrder<T(!new)>(days: seq<Day<T>>, date: string)
    ensures Sorting.Select(ByDate(days), (d: Day<T>) => d.date == date) == Sorting.Select(days, (d: Day<T>) => d.date == date)
  {
    Sorting.ByStringIsTotalPreorder((d: Day<T>) => d.date);
    Sorting.SortWithIsStable(days, Sorting.ByString((d: Day<T>) => d.date), (d: Day<T>) => d.date == date);
  }

  /**
   * `main` up to the plots: the `try` loop over the files, then the sort by
   * date. An empty result is the "No valid data to plot." exit.
   */
  method Summarize<T(!new), E>(files: seq<string>, load: string -> Result<T, E>) returns (summary: seq<Day<T>>)
    ensures multiset(summary) == multiset(Collected(files, load))
    ensures forall k :: 0 <= k < |summary| ==> |summary[k].date| == 8 && AllDigits(summary[k].date)
    ensures forall i, j :: 0 <= i < j < |summary| ==> DigitsValue(summary[i].date) <= DigitsValue(summary[j].date)
    ensures summary == ByDate(Collected(files, load))
  {
    var kept := CollectDays(files, load);
    forall k | 0 <= k < |kept| ensures |kept[k].date| == 8 && AllDigits(kept[k].date) {
      CollectedAreTheLoadedFiles(files, load, kept[k]);
    }
    ByDateIsChronological(kept);
    summary := ByDate(kept);
  }

  /** The `try` loop: every file's entry, the failed ones skipped. */
  method CollectDays<T, E>(files: seq<string>, load: string -> Result<T, E>) returns (kept: seq<Day<T>>)
    ensures kept == Collected(files, load)
  {
    ghost var entries := Entries(files, load);
    kept := [];
    var i := 0;
    while i < |files|
      invariant 0 <= i <= |files|
      invariant kept == Kept(entries[..i])
    {
      assert entries[..i + 1][..i] == entries[..i];
      var entry := Entry(files[i], load);
      assert entries[i] == entry;
      assert Kept(entries[..i + 1]) == if entry.Some? then kept + [entry.value] else kept;
      if entry.Some? {
        kept := kept + [entry.value];
      }
      i := i + 1;
    }
    assert entries[..|files|] == entries;
  }

  /** `[f"Day {i+1}" for i in range(n)]`. */
  function DayLabels(n: nat): (labels: seq<string>)
    ensures |labels| == n
  {
    seq(n, i requires 0 <= i < n => "Day " + NatToString(i + 1))
  }

  /** Day labels are distinct, and each one names its position counted from one. */
  lemma DayLabelsNamePositions(n: nat)
    ensures forall i :: 0 <= i < n ==> StartsWith(DayLabels(n)[i], "Day ")
    ensures forall i :: 0 <= i < n ==> AllDigits(DayLabels(n)[i][4..]) && DigitsValue(DayLabels(n)[i][4..]) == i + 1
    ensures forall i, j :: 0 <= i < j < n ==> DayLabels(n)[i] != DayLabels(n)[j]
  {
    var labels := DayLabels(n);
    forall i | 0 <= i < n
      ensures StartsWith(labels[i], "Day ") && labels[i][4..] == NatToString(i + 1)
      ensures DigitsValue(labels[i][4..]) == i + 1
    {
      assert labels[i] == "Day " + NatToString(i + 1);
      NatToStringValue(i + 1);
    }
  }

  // ---- background shading ----

  const AutomShade: string := "#E0CCFF"
  const DefaultShade: string := "#F5F5F5"

  /** `qw_colors.get(QW, "#F5F5F5")`: a float level finds the integer key of equal value. */
  function QwShade(q: Qw): (c: string)
    ensures c == DefaultShade <==> q == NA || (q.level != 0.0 && q.level != 1.0 && q.level != 2.0 && q.level != 3.0)
    ensures c != AutomShade
  {
    match q
    case NA => "#F5F5F5"
    case Level(x) =>
      if x == 0.0 then "#FFFFFF"
      else if x == 1.0 then "#FAD4D4"
      else if x == 2.0 then "#FCE5CD"
      else if x == 3.0 then "#FFF2CC"
      else DefaultShade
  }

  /** The 2-choice background: the automatic-reward colour overrides the QW colour. */
  function Shade(automReward: bool, q: Qw): (c: string)
    ensures c == AutomShade <==> automReward
    ensures !automReward ==> c == QwShade(q)
  {
    if automReward then AutomShade else QwShade(q)
  }
}
