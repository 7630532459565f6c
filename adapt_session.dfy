/**
 * The numbers analyze_adapt_sensorimotor.py plots for one session after
 * `fillna(0)`: the detailed trial counts with the per-type block counts, the
 * same bars restricted to each block type, the running hit and false-alarm
 * rates over the classified trials, and the performance percentages.
 */
module AdaptSession {
  import opened Wrappers
  import opened Tables
  import Classification
  import Detection
  import Outcomes
  import Blocks
  import GeneralSessions

  /** `trial_counts`: the nine outcome bars and the number of blocks of each type. */
  datatype TrialCounts = TrialCounts(bars: Outcomes.Bars, soundBlocks: nat, leftBlocks: nat, rightBlocks: nat)

  function SessionCounts(rows: seq<Row>): TrialCounts
  {
    var bs := Blocks.BlockColumn(rows);
    TrialCounts(
      Outcomes.SessionBars(rows, Tone5k, Tone10k),
      Blocks.BlockCount(bs, "sound"), Blocks.BlockCount(bs, "action-left"), Blocks.BlockCount(bs, "action-right"))
  }

  /**
   * The three block counts together never exceed the number of maximal runs
   * of equal `block` values, and a session that opens with a sound trial has
   * at least one sound block.
   */
  lemma BlockCountsWithinRuns(rows: seq<Row>)
    ensures var c := SessionCounts(rows);
      c.soundBlocks + c.leftBlocks + c.rightBlocks <= |Blocks.Runs(Blocks.BlockColumn(rows))|
    ensures rows != [] && rows[0].block == Some("sound") ==> SessionCounts(rows).soundBlocks >= 1
  {
    var bs := Blocks.BlockColumn(rows);
    Blocks.BlockCountIsRunCount(bs, "sound");
    ThreeLabelsWithin(Blocks.StartLabels(bs));
    if rows != [] {
      assert Blocks.StartLabels(bs)[0] in multiset(Blocks.StartLabels(bs));
    }
  }

  /** Occurrences of three distinct values never add up to more than the sequence's length. */
  lemma {:induction false} ThreeLabelsWithin(ls: seq<Blocks.Label>)
    ensures multiset(ls)[Some("sound")] + multiset(ls)[Some("action-left")] + multiset(ls)[Some("action-right")] <= |ls|
  {
    if ls != [] {
      assert ls == [ls[0]] + ls[1..];
      assert multiset(ls) == multiset{ls[0]} + multiset(ls[1..]);
      ThreeLabelsWithin(ls[1..]);
    }
  }

  /** The bars of one block type's rows (`df_block`, sorted by trial number). */
  function BlockBars(rows: seq<Row>, name: string): Outcomes.Bars
  {
    Outcomes.SessionBars(Blocks.BlockRows(rows, name), Tone5k, Tone10k)
  }

  /** Counting over one block type's sorted rows is counting that type's rows in table order. */
  lemma BlockCountsAreFilteredCounts(rows: seq<Row>, name: string, p: Row -> bool)
    ensures Count(Blocks.BlockRows(rows, name), p) == Count(Filter(rows, (r: Row) => r.block == Some(name)), p)
    ensures Count(Blocks.BlockRows(rows, name), p) <= Count(rows, p)
  {
    var inBlock := (r: Row) => r.block == Some(name);
    CountPermutation(Blocks.BlockRows(rows, name), Filter(rows, inBlock), p);
    FilterCountWithin(rows, inBlock, p);
  }

  lemma {:induction false} FilterCountWithin(rows: seq<Row>, q: Row -> bool, p: Row -> bool)
    ensures Count(Filter(rows, q), p) <= Count(rows, p)
  {
    if rows != [] {
      FilterCountWithin(rows[1..], q, p);
      var head := if q(rows[0]) then [rows[0]] else [];
      assert Filter(rows, q) == head + Filter(rows[1..], q);
      CountSplit(head, Filter(rows[1..], q), p);
      assert rows == [rows[0]] + rows[1..];
      CountSplit([rows[0]], rows[1..], p);
    }
  }

  /** Each of the nine bars of `a` is at most the same bar of `b`. */
  predicate BarsWithin(a: Outcomes.Bars, b: Outcomes.Bars)
  {
    a.lowTone <= b.lowTone && a.highTone <= b.highTone
    && a.lowOmissions <= b.lowOmissions && a.highOmissions <= b.highOmissions
    && a.earlyLicks <= b.earlyLicks
    && a.leftCorrect <= b.leftCorrect && a.leftIncorrect <= b.leftIncorrect
    && a.rightCorrect <= b.rightCorrect && a.rightIncorrect <= b.rightIncorrect
  }

  /** Every bar of a block type stays within the same bar for the whole session. */
  lemma BlockBarsWithinSession(rows: seq<Row>, name: string)
    ensures BarsWithin(BlockBars(rows, name), Outcomes.SessionBars(rows, Tone5k, Tone10k))
  {
    BlockCountsAreFilteredCounts(rows, name, r => Flag(r, Tone5k));
    BlockCountsAreFilteredCounts(rows, name, r => Flag(r, Tone10k));
    BlockCountsAreFilteredCounts(rows, name, r => Outcomes.Both(r, Omission, Tone5k));
    BlockCountsAreFilteredCounts(rows, name, r => Outcomes.Both(r, Omission, Tone10k));
    BlockCountsAreFilteredCounts(rows, name, r => Flag(r, EarlyLick));
    BlockCountsAreFilteredCounts(rows, name, r => Outcomes.Both(r, LeftSpout, Reward));
    BlockCountsAreFilteredCounts(rows, name, r => Outcomes.Both(r, LeftSpout, Punishment));
    BlockCountsAreFilteredCounts(rows, name, r => Outcomes.Both(r, RightSpout, Reward));
    BlockCountsAreFilteredCounts(rows, name, r => Outcomes.Both(r, RightSpout, Punishment));
  }

  // ---- performance over the classified trials (`df_plot`, table order) ----

  function Rewarded(r: Row): bool { Flag(r, Reward) }
  function Punished(r: Row): bool { Flag(r, Punishment) }

  /** `HR`: the clipped running hit rate after each classified trial. */
  function HitRates(plot: seq<Row>): (hr: seq<real>)
    ensures |hr| == |plot|
    ensures forall i :: 0 <= i < |hr| ==> Detection.Floor <= hr[i] <= Detection.Ceiling
  {
    var correct := Detection.RunningCount(plot, Rewarded);
    seq(|plot|, i requires 0 <= i < |plot| => Detection.ClippedRate(correct[i], i + 1))
  }

  /** `FA`: the clipped running false-alarm rate after each classified trial. */
  function FalseAlarmRates(plot: seq<Row>): (fa: seq<real>)
    ensures |fa| == |plot|
    ensures forall i :: 0 <= i < |fa| ==> Detection.Floor <= fa[i] <= Detection.Ceiling
  {
    var incorrect := Detection.RunningCount(plot, Punished);
    seq(|plot|, i requires 0 <= i < |plot| => Detection.ClippedRate(incorrect[i], i + 1))
  }

  /** `d_prime`, one value per classified trial. */
  function DPrimes(ppf: real -> real, plot: seq<Row>): (d: seq<real>)
    ensures |d| == |plot|
    ensures forall i :: 0 <= i < |plot| ==> d[i] == Detection.DPrime(ppf, HitRates(plot)[i], FalseAlarmRates(plot)[i])
  {
    seq(|plot|, i requires 0 <= i < |plot| => Detection.DPrime(ppf, HitRates(plot)[i], FalseAlarmRates(plot)[i]))
  }

  /**
   * The running counts behind the rates never decrease and never exceed the
   * trials seen, and after the last classified trial the rates are the
   * whole-session scalar rates.
   */
  lemma RunningRatesEndAtSessionRates(plot: seq<Row>)
    requires plot != []
    ensures forall i, j :: 0 <= i <= j < |plot| ==>
      Detection.RunningCount(plot, Rewarded)[i] <= Detection.RunningCount(plot, Rewarded)[j]
      && Detection.RunningCount(plot, Punished)[i] <= Detection.RunningCount(plot, Punished)[j]
    ensures forall i :: 0 <= i < |plot| ==>
      Detection.RunningCount(plot, Rewarded)[i] <= i + 1 && Detection.RunningCount(plot, Punished)[i] <= i + 1
    ensures HitRates(plot)[|plot| - 1] == Detection.ClippedRate(Count(plot, Rewarded), |plot|)
    ensures FalseAlarmRates(plot)[|plot| - 1] == Detection.ClippedRate(Count(plot, Punished), |plot|)
  {
    Detection.RunningCountProperties(plot, Rewarded);
    Detection.RunningCountProperties(plot, Punished);
  }

  /** `bar_values_pct`: correct, incorrect, correct-left and correct-right percentages. */
  datatype Performance = Performance(correct: real, incorrect: real, correctLeft: real, correctRight: real)

  function CorrectOn(plot: seq<Row>, side: Column): nat
  {
    Count(plot, r => Flag(r, Reward) && Flag(r, side))
  }

  /**
   * The percentages over the classified trials. `None` marks an empty
   * `df_plot`, where dividing by zero would give NaN; the script never gets
   * that far on such a session, as `AnalyzeSession` states.
   */
  function PerformanceSummary(plot: seq<Row>): (p: Option<Performance>)
    ensures p == None <==> plot == []
    ensures p.Some? ==> 0.0 <= p.value.correct <= 100.0 && 0.0 <= p.value.incorrect <= 100.0
    ensures p.Some? ==> 0.0 <= p.value.correctLeft <= p.value.correct
    ensures p.Some? ==> 0.0 <= p.value.correctRight <= p.value.correct
  {
    if plot == [] then None
    else
      var n := |plot|;
      var correct := Count(plot, Rewarded);
      CountMonotone(plot, r => Flag(r, Reward) && Flag(r, LeftSpout), Rewarded);
      CountMonotone(plot, r => Flag(r, Reward) && Flag(r, RightSpout), Rewarded);
      Outcomes.PercentMonotone(CorrectOn(plot, LeftSpout), correct, n);
      Outcomes.PercentMonotone(CorrectOn(plot, RightSpout), correct, n);
      Some(Performance(
        Outcomes.Percent(correct, n), Outcomes.Percent(Count(plot, Punished), n),
        Outcomes.Percent(CorrectOn(plot, LeftSpout), n), Outcomes.Percent(CorrectOn(plot, RightSpout), n)))
  }

  // ---- the session as a whole ----

  /** The numbers of the first figure: the detailed counts, the running rates and the percentages. */
  datatype SessionFigure = SessionFigure(
    counts: TrialCounts,
    hitRates: seq<real>, falseAlarmRates: seq<real>, dPrimes: seq<real>,
    performance: Performance)

  /**
   * Why `analyze` stops without a figure: a column it reads that the file
   * lacks (`KeyError` at its first use), or a session none of whose trials
   * gets a category, whose NaN trial range `ax0.set_xlim` refuses
   * (`ValueError`; `min(d_prime)` of the empty array would fail next).
   */
  datatype SessionError = MissingColumn(column: Column) | NoClassifiedTrial

  /**
   * The columns `analyze` reads whatever the rows hold, in the order it
   * reads them up to the trial sort: the latency inputs, `autom_reward`,
   * `block`, the six category masks and `trial_number`.
   */
  const ReadColumns: seq<Column> :=
    [TrialStart, LickTime, AutomReward, Block, EarlyLick, Omission, LeftSpout, Reward, RightSpout, Punishment, TrialNumber]

  /** The stimulus columns the background shading and the count bars read. */
  const StimulusColumns: set<Column> := {CatchTrial, Tone5k, Tone10k}

  predicate HasStimulusColumns(columns: set<Column>)
  {
    CatchTrial in columns && Tone5k in columns && Tone10k in columns
  }

  /**
   * The column the shading loop asks of one row and the table lacks, if any:
   * `catch_trial` always, `5KHz` only when the row is no catch trial,
   * `10KHz` only when it is neither.
   */
  function ShadeMissing(r: Row, columns: set<Column>): (m: Option<Column>)
    ensures m.Some? ==> m.value in StimulusColumns && m.value !in columns
    ensures CatchTrial !in columns ==> m == Some(CatchTrial)
    ensures HasStimulusColumns(columns) ==> m.None?
    ensures m.None? && !Flag(r, CatchTrial) && !Flag(r, Tone5k) ==> HasStimulusColumns(columns)
  {
    if CatchTrial !in columns then Some(CatchTrial)
    else if Flag(r, CatchTrial) then None
    else if Tone5k !in columns then Some(Tone5k)
    else if Flag(r, Tone5k) then None
    else if Tone10k !in columns then Some(Tone10k)
    else None
  }

  /** The first row of the shading loop whose reads fail, by the column it misses. */
  function ShadingMissing(rows: seq<Row>, columns: set<Column>): (m: Option<Column>)
    ensures m.None? <==> forall i :: 0 <= i < |rows| ==> ShadeMissing(rows[i], columns).None?
    ensures m.Some? ==> m.value in StimulusColumns && m.value !in columns
    ensures rows != [] && CatchTrial !in columns ==> m == Some(CatchTrial)
  {
    if rows == [] then None
    else match ShadeMissing(rows[0], columns)
      case Some(c) => Some(c)
      case None =>
        var m := ShadingMissing(rows[1..], columns);
        assert forall i :: 1 <= i < |rows| ==> rows[i] == rows[1..][i - 1];
        m
  }

  /** The last running rates only, so that callers do not carry the whole running-count facts. */
  lemma FinalRates(plot: seq<Row>)
    requires plot != []
    ensures HitRates(plot)[|plot| - 1] == Detection.ClippedRate(Count(plot, Rewarded), |plot|)
    ensures FalseAlarmRates(plot)[|plot| - 1] == Detection.ClippedRate(Count(plot, Punished), |plot|)
  {
    RunningRatesEndAtSessionRates(plot);
  }

  /**
   * The figure's numbers once some trial is classified: the counts of the
   * whole table, the running rates over the classified trials in table
   * order ending at the session's clipped rates, a d' per classified trial,
   * and the percentages of the classified trials.
   */
  function FigureOf(ppf: real -> real, rows: seq<Row>): (f: SessionFigure)
    requires Classification.Classified(rows) != []
    ensures f.counts == SessionCounts(rows)
    ensures var n := |Classification.Classified(rows)|;
            |f.hitRates| == n && |f.falseAlarmRates| == n && |f.dPrimes| == n
    ensures var plot := Classification.Classified(rows);
            f.hitRates[|plot| - 1] == Detection.ClippedRate(Count(plot, Rewarded), |plot|)
            && f.falseAlarmRates[|plot| - 1] == Detection.ClippedRate(Count(plot, Punished), |plot|)
    ensures forall i :: 0 <= i < |f.dPrimes| ==> f.dPrimes[i] == Detection.DPrime(ppf, f.hitRates[i], f.falseAlarmRates[i])
    ensures PerformanceSummary(Classification.Classified(rows)) == Some(f.performance)
  {
    var plot := Classification.Classified(rows);
    var hits, falseAlarms := HitRates(plot), FalseAlarmRates(plot);
    var dPrimes := DPrimes(ppf, plot);
    FinalRates(plot);
    assert forall i :: 0 <= i < |dPrimes| ==> dPrimes[i] == Detection.DPrime(ppf, hits[i], falseAlarms[i]);
    SessionFigure(SessionCounts(rows), hits, falseAlarms, dPrimes, PerformanceSummary(plot).value)
  }

  lemma ShadingPasses(rows: seq<Row>, columns: set<Column>)
    requires HasStimulusColumns(columns)
    ensures ShadingMissing(rows, columns).None?
  {
  }

  /**
   * `analyze` on one session table. A column read before the trial sort
   * that the file lacks fails first, in read order; then the shading loop
   * over every row fails at the first stimulus column it asks for and the
   * file lacks; then a session without a classified trial fails at
   * `set_xlim`; then a missing `5KHz` or `10KHz` fails at the count bars.
   * Otherwise the figure holds `FigureOf` the filled rows.
   */
  function AnalyzeSession(ppf: real -> real, t: Table): (r: Result<SessionFigure, SessionError>)
    ensures r.Ok? ==> (forall k :: 0 <= k < |ReadColumns| ==> ReadColumns[k] in t.columns)
                      && HasStimulusColumns(t.columns)
                      && Classification.Classified(FillNa(t).rows) != []
    ensures ((forall k :: 0 <= k < |ReadColumns| ==> ReadColumns[k] in t.columns)
             && HasStimulusColumns(t.columns)
             && Classification.Classified(FillNa(t).rows) != []) ==> r.Ok?
    ensures (exists k :: 0 <= k < |ReadColumns| && ReadColumns[k] !in t.columns) ==>
              r.Err? && r.error.MissingColumn? && GeneralSessions.MissingFirst(t.columns, ReadColumns, r.error.column)
    ensures r.Err? && r.error.MissingColumn? ==>
              r.error.column !in t.columns && (r.error.column in ReadColumns || r.error.column in StimulusColumns)
    ensures r.Err? && r.error.NoClassifiedTrial? <==>
              (forall k :: 0 <= k < |ReadColumns| ==> ReadColumns[k] in t.columns)
              && (forall i :: 0 <= i < |t.rows| ==> ShadeMissing(FillNa(t).rows[i], t.columns).None?)
              && Classification.Classified(FillNa(t).rows) == []
    ensures r.Ok? ==> Classification.Classified(FillNa(t).rows) != [] && r.value == FigureOf(ppf, FillNa(t).rows)
  {
    var rows := FillNa(t).rows;
    match GeneralSessions.FirstMissing(t.columns, ReadColumns)
    case Some(c) => Err(MissingColumn(c))
    case None =>
      match ShadingMissing(rows, t.columns)
      case Some(c) =>
        assert !(HasStimulusColumns(t.columns)) by {
          if HasStimulusColumns(t.columns) { ShadingPasses(rows, t.columns); }
        }
        Err(MissingColumn(c))
      case None =>
        var plot := Classification.Classified(rows);
        if plot == [] then Err(NoClassifiedTrial)
        else
          assert plot[0] in rows;
          assert CatchTrial in t.columns;
          if Tone5k !in t.columns then Err(MissingColumn(Tone5k))
          else if Tone10k !in t.columns then Err(MissingColumn(Tone10k))
          else Ok(FigureOf(ppf, rows))
  }

  /**
   * A file holding only `trial_number`, `left_spout` and `reward`, with one
   * rewarded left trial, stops at a missing column although its trial is
   * classified.
   */
  lemma PartialTableStops(ppf: real -> real)
    ensures var t := Table({TrialNumber, LeftSpout, Reward}, [Row(1, None, map[LeftSpout := 1.0, Reward := 1.0])]);
            var r := AnalyzeSession(ppf, t);
            r.Err? && r.error.MissingColumn? && r.error.column in ReadColumns
  {
    var t := Table({TrialNumber, LeftSpout, Reward}, [Row(1, None, map[LeftSpout := 1.0, Reward := 1.0])]);
    assert ReadColumns[0] !in t.columns;
  }
}
